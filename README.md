# Raven Entertainment booking core, in Dafny

This project models the sequential logic at the heart of the Raven
Entertainment Django application and proves properties of it.

- **Shows.** Saving a show picks a unique slug and, the first time only,
  generates the fixed seat layout of the theatre. The ground floor has rows
  A to T of 26 seats, with rows A and B pre-booked. When the show includes
  the balcony, it also has rows BA to BO of 22 free seats.
- **Booking.** The user booking page groups a show's seats into ground and
  balcony rows and recommends seats from the centre out. Posting it books a
  set of seats all-or-nothing: one confirmed booking at n times the seat
  price, plus one ticket per seat.
- **Admin operations.** Admins can book manually, where the only check is
  the seat count. They can edit a booking's seats. They can scan tickets,
  either by a pasted ticket URL or by a bare id.
- **Tickets.** A ticket's scanned flag only ever goes from false to true.
- **Accounts.** This covers the user manager, the six-digit email code with
  its resend throttle and ten-minute expiry, the password reset by code, the
  login gate for unverified users, and the two `is_admin` predicates of the
  accounts views.

## Modules

- `text.dfy`, module **Text**: the string helpers the source uses, restricted
  to ASCII. They cover `isdigit`, `isalpha`, `strip`, `int`, `str` and
  `split`/`join` on one separator.
- `seqs.dfy`, module **Seqs**: counting, filtering, distinctness and a
  key-sorted insertion sort.
- `models.dfy`, module **Models**: the table rows as values, with their
  declared defaults. Money is held in integer cents and dates as day numbers.
- `layout.dfy`, module **SeatLayout**: the seat layout of `Show.save`.
- `slug.dfy`, module **Slugs**: the slug loop of `Show.save`.
- `selection.dfy`, module **SeatSelection**: the rules a booking request
  follows.
  - Which seat ids the form carries.
  - When `create_booking` and `admin_manual_booking` accept a request.
  - What each does to the seat table.
  - What `edit_booking` recomputes.
- `rows.dfy`, module **SeatRows**: grouping seats into rows and the seat
  recommender.
- `scan.dfy`, module **TicketScan**: reading the ticket id in
  `admin_scan_tickets`.
- `store.dfy`, module **Store**: class `Database`, which holds the tables.
  Each handler is one atomic method that changes those tables.
- `accounts.dfy`, module **Accounts**: class `CustomUser`, the manager, and
  the account handlers.

## Model

| member | source | states |
|---|---|---|
| Models.NewShow | user/models.py:38-49 | A show created without a slug or an `include_balcony` value has a blank slug and includes the balcony (`include_balcony` defaults to true). |
| Models.NewBooking | user/models.py:111-132 | A booking created with only user and show has status Pending, one ticket, price 0, no linked ticket, event name "Default Event Name" and event date 1 January 2025. |
| Models.NewTicket | user/models.py:149-160 | A new ticket is unscanned and confirmed, and carries the user, show and seat number it was given. |
| SeatLayout.AppendRow | user/models.py:81-86 | The inner loop appends exactly seats `row1` to `row<width>` of one row, in order, each with the row's booked flag. |
| SeatLayout.GenerateLayout | user/models.py:79-96 | The nested loops create exactly `Layout(includeBalcony)`: the ground block, followed by the balcony block only when the balcony is included. |
| SeatLayout.LayoutSize | user/models.py:79-96 | The layout has 850 seats with the balcony and 520 without. |
| SeatLayout.LayoutBooking | user/models.py:79-96 | A layout seat is booked exactly when its row is A or B. A balcony seat exists only when the balcony is included, and it is free. Every seat number is its letter row label followed by its number, which is at least 1. |
| SeatLayout.LayoutNumbersDistinct | user/models.py:79-96 | No two seats of a layout share a seat number. |
| Store.DefaultShowLayout | user/models.py:77-96 | A show created without `include_balcony` (which defaults to true) gets 850 seats on its first save, and 52 of them start booked. |
| SeatLayout.LayoutBookedCount | user/models.py:83 | Exactly 52 seats start booked (rows A and B). That leaves 468 free seats without the balcony and 798 with it. |
| Slugs.CandidateInjective | user/models.py:60 | Two numbered candidates `base-j` and `base-k` are equal exactly when j = k. |
| Slugs.ChooseSlug | user/models.py:55-62 | The loop returns a slug no other show uses. It is the base when the base is free; otherwise it is `base-k` for the least k >= 1 that is free. |
| Slugs.FirstFreeIsUnique | user/models.py:55-62 | That description allows only one slug, so the loop's result is determined by the base and the other shows' slugs. |
| Store.Database.AssignSlug | user/models.py:55-62 | A show with a non-empty slug keeps it and nothing else changes. A blank slug becomes the first free candidate among the other shows' slugs, and only that field changes. |
| Store.Database.CreateLayout | user/models.py:76-96 | A show that owns any seat keeps the seat table as it was. Otherwise the layout's seats are appended with fresh consecutive ids: 850 or 520 rows. Ids stay unique. |
| Store.Database.SaveShow | user/models.py:51-96 | Re-saving a show with a slug and seats changes nothing. A first save gets the first free slug and exactly one layout. |
| SeatSelection.SelectedSeatIds | user/views.py:155-156 | There is one id for each comma-separated piece that strips to digits, in order. |
| SeatSelection.SelectedSeatIdsRoundTrip | user/views.py:155-156 | Parsing the comma-joined ids the page posts gives back those ids. |
| SeatSelection.CanBookIff | user/views.py:158-164 | `create_booking` accepts a request exactly when the ids are distinct and each names a free seat of this show. |
| SeatSelection.MatchedCountIff | user/views.py:159-162 | The count check holds exactly when the ids are distinct and each names a seat of this show. |
| SeatSelection.CanBookManuallyIff | accounts/views.py:582-585 | Manual booking accepts exactly distinct ids that each name a seat of this show, booked or not. |
| SeatSelection.ManualBookingAcceptsBookedSeat | accounts/views.py:585-595 | There is a request that manual booking accepts and `create_booking` refuses: a seat that is already booked. |
| SeatSelection.MarkBooked | user/views.py:171 | The update changes only the booked flag of each row. |
| SeatSelection.BookingChangesOnlySelected | user/views.py:171 | After an accepted booking, a row changes exactly when its id was selected. Every changed row belongs to the show and is now booked, and ids stay unique. |
| SeatSelection.NoDoubleBooking | user/views.py:158-171 | Once one booking is applied, a second booking of the same show that shares a seat with it is refused. |
| SeatSelection.BookingFreeCount | user/views.py:171 | An accepted booking of n seats leaves exactly n fewer free seats. |
| SeatSelection.MarkMatchedIsMarkBooked | accounts/views.py:593-595 | Once the count check holds, flagging the matched seats of the show flags the same rows as flagging by id. |
| SeatSelection.TicketsFor | user/views.py:183-192 | There is one ticket per matched seat. |
| SeatSelection.ParseIds | accounts/views.py:581-585 | The posted ids are read as `int` reads them. Any piece that is not a number makes the whole query fail. |
| SeatSelection.ParseIdsRoundTrip | accounts/views.py:575-585 | The ids the manual page posts, one `str(seat.id)` per checked seat, are read back as those same ids. |
| SeatSelection.EditSeats | user/views.py:326-333 | Only the booked flags of the booking's related seats change. |
| SeatSelection.EditedCount | user/views.py:326-335 | After an edit, the booked count of the related seats is the number of related seats whose id was posted. |
| SeatRows.SortByKeySorts | user/views.py:122-126 | A sorted row is ordered by the numeric part of the seat number and holds the same seats. |
| SeatRows.SortRows | user/views.py:122-126 | Every row of the map is replaced by its sorted seats, and no row is added or lost. |
| SeatRows.GroupRows | user/views.py:113-126 | The ground and balcony maps have exactly the ground and balcony labels as keys. A label of at least two letters that starts with "B" is a balcony label. Each row holds exactly the seats with that label, sorted by number, as a permutation. |
| SeatRows.EverySeatGrouped | user/views.py:116-121 | Every listed seat lands in the group of its own label, on its own floor. |
| SeatRows.FirstNumberedIsFree | user/views.py:137-142 | When seat numbers are distinct, the seat `next` picks for a number with a free seat is that free seat. |
| SeatRows.WantedInjective | user/views.py:137-146 | The labels `f"{row}{n}"` the scan looks for are equal exactly when the numbers are, so the left and right seats at a non-zero offset are different seats. |
| SeatRows.RecommendableIsFree | user/views.py:137-146 | When each stall row holds every number once, a recommended seat is free. |
| SeatRows.Consider | user/views.py:137-148 | The list grows by exactly the first seat of the row with the wanted number (booked or not, as `next` takes it) when that number has a free seat, or stays the same when that number has no free seat. The new seat belongs to the row, and the number is then covered. |
| SeatRows.ConsiderPair | user/views.py:135-146 | One offset adds the left pick, then the right pick, to the end of the list. At offset 0 both picks are seat 10, so a free seat 10 is added twice. |
| SeatRows.ScanRow | user/views.py:133-150 | One row, seat 10 and then outward, left before right. It only appends seats of that row after the seats already chosen, and never holds more than six. When it ends with fewer than five, every free number of offsets 0..12 in the row is recommended. |
| SeatRows.Recommend | user/views.py:128-152 | At most six seats, each the first seat of a number in rows C..T that has a free seat. With fewer than five, every such free number has been recommended. |
| Store.Database.BookingPage | user/views.py:106-153 | It refuses a missing or past show. A seat number without digits is an error. Otherwise the rows are grouped and sorted, and at most six recommendations are given, each the first seat of the show with a number that has a free seat (free when the row's numbers are distinct). When fewer than five are given, every free seat number the scan reaches is recommended. Nothing changes. |
| Store.Database.CreateBooking | user/views.py:106-197 | Each refusal happens exactly when its condition holds, and a refusal changes nothing. The refusals are: no show, a past show, a seat number without digits, no ids, and ids that cannot be booked. When the ticket email, PDF or QR step fails (`deliveryFails`), the whole transaction rolls back and nothing changes. Otherwise, exactly the selected seats become booked. One confirmed booking is added for n tickets at n times the seat price, linked to the first of the n new tickets, one per matched seat. No scanned flag is ever cleared. |
| Store.Database.ApplyBooking | user/views.py:171-197 | The success path: seats flagged by id, then the booking row, the tickets, and the link to the first ticket. |
| Store.Database.IssueTickets | user/views.py:183-192 | New tickets are appended with consecutive fresh ids, one per seat, in order. Ids stay unique. |
| Store.Database.ManualBooking | accounts/views.py:550-621 | Corrected: refusals, each changing nothing: not staff, no show, a free seat without digits, missing name, email or ids, and an id that is not a number. A count mismatch also changes nothing. Otherwise every matched seat becomes booked and one ticket per matched seat is issued to the admin, with no booking row. A QR failure (`qrFailsAt`) is reported as `BookedQrFailed` exactly when it happens, and the booking stands. |
| Store.Database.ApplyManualAsWritten | accounts/views.py:592-621 | As written: when the QR step fails at seat k, the error is caught inside the atomic block, so seats 0..k are booked and ticketed and the failure is reported. |
| SeatSelection.PartialManualBooking | accounts/views.py:592-621 | A two-seat manual booking whose QR step fails at the first seat leaves the first seat booked and the second free. |
| Store.Database.ApplyManual | accounts/views.py:592-604 | The success path of manual booking: matched seats flagged and ticketed. |
| Store.Database.EditBookingAsWritten | user/views.py:318-335 | As written, the handler either refuses a non-admin, reports a missing booking, or fails on its seat query. It never edits. |
| Store.Database.EditBooking | user/views.py:318-335 | The corrected handler sets each related seat to booked exactly when its id was posted. The booking's ticket count becomes the booked count and its price becomes that count times the seat price. |
| Store.Database.VerifyQr | user/views.py:387-414 | As written: an unknown ticket changes nothing. Otherwise the flag is set first. When a district was found, exactly one scan log is appended and the flag's previous value is reported. When none was found, the log insert fails and no log is written, but the flag stays set. |
| Store.Database.VerifyQrLogged | user/views.py:387-414 | Corrected: every scan of a known ticket sets the flag and appends exactly one log, and never fails. |
| TicketScan.ExtractTicketId | accounts/views.py:418-420 | The result is either the whole input, or the digits that follow `/qr/` at its end, optionally followed by one slash. |
| TicketScan.ExtractFromUrl | accounts/views.py:418-420 | A URL ending in `/qr/<digits>`, with or without a trailing slash, yields those digits. |
| TicketScan.ExtractBareId | accounts/views.py:418-420 | Input without a slash is taken whole. |
| TicketScan.ParseTicketId | accounts/views.py:422-423 | `int` accepts an optional sign followed by ASCII digits, and the model accepts nothing else. Underscore-grouped numerals such as "1_0", which `int` also reads, are refused by the model. |
| TicketScan.TicketUrlRoundTrip | accounts/views.py:418-423 | The id printed in a ticket URL is read back as that id. |
| Store.Database.AdminScanTicket | accounts/views.py:410-443 | Refusals, each changing nothing: not an admin by type, no show, and an unreadable id. A ticket that is missing or belongs to another show is invalid. An already-scanned ticket is reported and nothing changes. Otherwise the flag flips and exactly one log is appended. |
| Store.Database.ScanById | accounts/views.py:422-443 | The three outcomes of the lookup, exactly as above. |
| Accounts.OtpText | accounts/models.py:45 | `str(n)` for n in 100000..999999 is six digits, with no leading zero, and reads back as n. |
| Accounts.CustomUser.GenerateOtp | accounts/models.py:44-47 | The code becomes six digits and the send time becomes now. No other field changes. |
| Accounts.CustomUser.constructor | accounts/models.py:37-42 | A new user has type "User" unless one is given, is unverified, and has no code and no send time. |
| Accounts.CreateUser | accounts/models.py:9-16 | It refuses a missing or empty username. Otherwise the new user has the given fields and the defaults. |
| Accounts.SuperuserCheckIff | accounts/models.py:18-26 | A superuser is refused exactly when a flag was passed as something other than true. The superuser flag is reported first. |
| Accounts.CreateSuperuser | accounts/models.py:18-28 | The flags are checked after their defaults, then the user is created as `create_user` does. A created superuser is staff and superuser, with type "Admin" unless given. |
| Accounts.AdminPredicatesDiverge | accounts/views.py:32-33 | For every user, the type-based and the staff-based `is_admin` disagree exactly when the user is signed in and type "Admin" and the staff flag differ. They disagree in both directions. |
| Accounts.SuperuserDefaultsAreAdminBoth | accounts/views.py:276-277 | A superuser created with the defaults is an admin under both definitions. |
| Accounts.OtpTimeBoundaries | accounts/views.py:456-460 | A resend is throttled up to 60 seconds after the last send and allowed from then on. A code is still good at exactly ten minutes and expired one microsecond later. |
| Accounts.ResendOtp | accounts/views.py:452-466 | It is throttled exactly when the last send was less than 60 seconds ago, and the code and send time are then unchanged. Otherwise a new six-digit code is issued, stamped now. The name, email, password, type and flags never change. |
| Accounts.VerifyEmailOtp | accounts/views.py:482-506 | An expired code is refused whatever was entered. Otherwise the user is verified exactly when the entered value equals the stored one, and is routed by type. Nothing else changes. |
| Accounts.VerifyEmailOtpIssued | accounts/views.py:482-502 | Corrected: the same handler, but only an issued, non-empty code verifies and logs the user in. |
| Accounts.VerifyAfterReset | accounts/views.py:495-499 | As written: after a reset, posting the empty code within ten minutes verifies the user and logs them in. |
| Accounts.VerifyAfterResetIssued | accounts/views.py:495-499 | Corrected: after a reset, the empty code is refused. |
| Accounts.SuperuserVerifiedWithoutCode | accounts/views.py:486-499 | As written: a new superuser has no code, so a request without `otp` verifies and logs in as that superuser. |
| Accounts.SuperuserRefusedWithoutCode | accounts/views.py:486-499 | Corrected: that request is refused, and the superuser stays unverified. |
| Accounts.ResetPassword | accounts/views.py:532-547 | As written: a match sets the new hash and clears the code to "". A mismatch changes nothing. The name, email, type and flags never change. There is no expiry check. |
| Accounts.ResetReplays | accounts/views.py:537-539 | As written, the cleared code "" is accepted again, as is an absent value for a user who has no code. |
| Accounts.ResetTwice | accounts/views.py:537-539 | As written, a second reset posting the empty code also succeeds. |
| Accounts.ResetPasswordIssued | accounts/views.py:532-547 | Corrected: only an issued, non-empty code is accepted, with the same effects. |
| Accounts.ResetIssuedNoReplay | accounts/views.py:537-539 | Corrected: nothing is accepted once the code is cleared or when none was issued. On any real six-digit code it agrees with the handler as written. |
| Accounts.ResetTwiceIssued | accounts/views.py:537-539 | Corrected: the replay is refused and the first new password stays. |
| Accounts.Dashboard | accounts/views.py:80-82 | The admin dashboard is chosen exactly for type "Admin". |
| Accounts.Login | accounts/views.py:66-89 | A login succeeds exactly when the credentials are good and the email is verified. An unverified user is turned away, and a verified user goes to the admin dashboard exactly when the type is "Admin". |

## Left out

- Email, the ticket PDF and the QR code images (`generate_ticket_qr`, `generate_ticket_pdf`, `qrcode`) are not modelled beyond whether they fail. In `create_booking` a failure rolls the whole transaction back (the `deliveryFails` parameter). In manual booking, as written, a QR failure at matched seat k is caught inside the atomic block, which commits seats 0..k (the parameter `k` of Store.Database.ApplyManualAsWritten; see Findings). The corrected Store.Database.ManualBooking takes the failure as the parameter `qrFailsAt` and keeps the whole booking. The manual booking email is sent on a thread, so its failure leaves the tables as they are. The image fields are not modelled.
- The show's QR image step in `Show.save` is not modelled.
- IP geolocation is an external HTTP call. Store.Database.VerifyQr takes its result as the parameter `district`, which is None when the lookup fails. The other location columns of `QRScanLog` are not modelled.
- HTTP responses, redirects, templates and flash messages become outcome values of the handlers.
- Transactions and row locks are not modelled. Each handler is one atomic method, and concurrency is out of scope.
- The clock, the random generator, `slugify`, `normalize_email` and `make_password` are parameters. The random choice is any value in 100000..999999.
- `resend_email_otp` reads the clock more than once in one request. Its readings are modelled as one value.
- Time is counted in integer microseconds, the resolution of `DateTimeField`.
- Money is held in integer cents: `DecimalField(decimal_places=2)`.
- `str.strip`, `str.isdigit`, `str.isalpha` and `int` are modelled on ASCII only. Unicode digits, letters and whitespace are not modelled.
- `int` on underscore-grouped numerals is not modelled.
- SeatSelection.ParseIds: an id with a sign, such as "+5", is treated as failing. `int` would read it. A signed id can only name a seat when it is "+" followed by that seat's digits.
- `edit_booking` filters seats on a `booking` field that `Seat` does not have, so the source records no seats for a booking. The corrected `Store.Database.EditBooking` takes the booking's seat ids as the parameter `related`.
- The stability of Python's `sorted` is not stated as a property. SeatRows.SortByKey is stated as sorted and as a permutation only.
- `handle_create_show`, and the other views guarded by either `is_admin`, are not modelled beyond the two predicates. The guard of each modelled handler is a boolean parameter.
- `book_seats` is not modelled. It flags listed ids with no check.
- `process_payment` and the attendance percentage are not modelled. Both are floating-point computations.
- The websocket consumers, forms, admin registration and URL configuration are not modelled. They hold no logic of their own.
- Store.Database.BookingPage: the recommender is stated through its invariants (bound, recommendable seats, coverage when it stops early), not as the exact order of the seats it returns.
- SeatRows.ScanRow: the order of the appended seats (seat 10, then outward) is stated one offset at a time, by SeatRows.ConsiderPair, not as one list for the whole row.
- Accounts.CreateUser: a duplicate username or email is refused by the database's unique constraints (an IntegrityError). The model keeps no table of users, so this refusal is not modelled.
- SeatRows.Recommend: the guarantee of coverage is given only when it returns fewer than five seats. When it stops at five or six, which seats were skipped is not stated.

## Findings

| source | as written | input that shows it | evidently intended | confidence | as-written member | corrected member |
|---|---|---|---|---|---|---|
| accounts/views.py:537-539 | The reset compares `otp == user.email_otp` and then clears the code to "", so the cleared code is itself a valid code. A user who never had a code is also matched by a request without the `otp` field. | First a reset with the real code. Then a second POST with `otp=""` and any new password also succeeds. | Accept only a code that was issued and not yet used. | high (not executed) | Accounts.ResetTwice | Accounts.ResetTwiceIssued |
| user/views.py:324 | The seat query `Seat.objects.filter(show=booking.show, booking=booking)` names a field that `Seat` does not have. Django raises a FieldError, so no booking can ever be edited. | Any admin edit of an existing booking. | Filter the seats that belong to the booking, and recompute count and price from them. | high (not executed) | Store.Database.EditBookingAsWritten | Store.Database.EditBooking |
| user/views.py:391-407 | The ticket's scanned flag is saved before the scan log is created. The log's `district` column is NOT NULL (user/models.py:172), but the geolocation helper returns None when the lookup fails. The insert then raises an IntegrityError outside any transaction. | A scan of a valid ticket from a private address, or while the location service cannot be reached. The flag is set, no log is written, and the request fails. | Every scan of a valid ticket is logged, whether or not a location was found. | high (not executed) | Store.Database.VerifyQr | Store.Database.VerifyQrLogged |
| accounts/views.py:592-621 | The seats are booked and ticketed one at a time inside `transaction.atomic`. The exception handler is inside the atomic block too, so a failure in `generate_ticket_qr` does not roll back the seats already done. | A manual booking of two seats whose QR image fails for the first seat: that seat is booked and ticketed, the second stays free, and an error is shown. | Every matched seat is booked and ticketed, and the QR failure is reported. A failed QR image is a delivery failure, which must not undo the reservation. | medium (not executed) | Store.Database.ApplyManualAsWritten | Store.Database.ManualBooking |
| accounts/views.py:495-499 | The check `entered_otp == user.email_otp` is the only test before `login`. A password reset leaves the code as "" (accounts/views.py:539), so an empty `otp` matches. | A password reset, then, within ten minutes of the code being sent, a POST to the verification URL with `otp=""` logs in as that user. | Only a code that was issued and not yet used verifies the user. | high (not executed) | Accounts.VerifyAfterReset | Accounts.VerifyAfterResetIssued |
| accounts/views.py:486-499 | `request.POST.get("otp")` is None when the field is missing, and a user made by `create_superuser` has no code and no send time, so `None == None` holds and the expiry test is skipped. | A POST without `otp` to the verification URL of a new superuser logs in as that superuser. | A user without an issued code cannot be verified by this handler. | high (not executed) | Accounts.SuperuserVerifiedWithoutCode | Accounts.SuperuserRefusedWithoutCode |
