# Tour booking system: a Dafny model of its business rules

This project models the business rules of a tour-booking web application written in
C# (ASP.NET MVC over an Access database). Its scope:

- Sign-in with a per-client lockout: five failures lock a client for 15 minutes.
- Registration, password change, remember-me tokens and sign-out.
- Booking a tour:
  - the tour must be ACTIVE and have free seats;
  - the price is the tour price times the quantity;
  - only the owner can cancel, and only while the booking is PENDING;
  - the booking list is split into pending and confirmed bookings.
- Checkout: the form is shown only for the owner's CONFIRMED, unpaid booking, and the
  POST records a PAID order.
- The data-access layer, as in-memory tables: users, tours, bookings, orders and
  favourites.
- The model classes, with their normalising setters.
- The validation utilities, and the hex spelling of password hashes.

How the model is laid out:

- There is one module per source file. `Wrappers`, `Text` and `Tables` hold shared
  helpers: `Option`, the .NET string operations, and table operations on sequences.
- Classes whose setters change fields (`Tour`, `Booking`, `User`) are Dafny classes.
- Every table is a store class with a `rows: seq<…>` field and an auto-increment
  `nextId`. Its methods state the new table and the answer of each SQL statement.
- Controllers are methods over the stores. Each is proved against a specification
  function (for example `CheckoutPage`, `Pay`, `Outcome`, `Refusal`), and the
  properties are proved about those functions.
- Parameters stand in for what the model leaves open:
  - session values, cookies, headers and the client address;
  - the clock `now`;
  - the random remember-me token;
  - `int.Parse`, `decimal.Parse` and `DateTime.Parse`, as `string -> Option<int>`;
  - the SHA-256 digest, as `string -> seq<Byte>`.

Money (`decimal`) and instants (`DateTime`, Unix milliseconds) are `int`.

Two behaviours of the code that the model keeps as written:

- The checkout POST (Controllers/CheckoutController.cs:76-125) checks neither for an
  earlier PAID order nor for CONFIRMED status; only the GET does (lines 43-49).
  `SecondPaymentAccepted` and `UnconfirmedPaymentAccepted` state this.
- `isValidPassword` accepts 6 characters, but registration and password change ask
  for 8. Each rule is modelled where it is used.

## Model

| member | source | states |
|---|---|---|
| AccountController.Attempt.Increment | Controllers/AccountController.cs:41-45 | one more failure, counted at `now`: count + 1 and lastAttempt = now |
| AccountController.Attempt.RemainingAttempts | Controllers/AccountController.cs:57-60 | the result is non-negative and is 0 exactly when 5 or more failures were counted; for a non-negative count it is at most 5 and at least 5 − count |
| AccountController.Attempt.RemainingSeconds | Controllers/AccountController.cs:101-104 | for a locked record: the whole seconds left until lastAttempt + 900 000 ms, never negative, and at most 900 when the clock has not gone back |
| AccountController.FreshAttempt | Controllers/AccountController.cs:35-39 | a new record has no failures and is not locked |
| AccountController.FailedRequest | Controllers/AccountController.cs:126-159 | a failed request leaves a locked record as it is, and otherwise counts one more failure stamped `now` |
| AccountController.Settle | Controllers/AccountController.cs:157-166 | after the lookup, a success removes the client's record and a failure counts one more (`AfterFailure`) |
| AccountController.AfterFailure | Controllers/AccountController.cs:120-163 | a counted failure raises that client's count by exactly one, stamps it `now`, and leaves every other client's record as it was |
| AccountController.LoginGuard.Record | Controllers/AccountController.cs:120-124 | the client's record afterwards exists; an existing record is returned unchanged, a missing one is created fresh |
| AccountController.LoginGuard.CountFailure | Controllers/AccountController.cs:147-159 | only that client's record changes, by `Increment(now)` |
| AccountController.LoginGuard.Forget | Controllers/AccountController.cs:166 | that client's record is removed and no other changes |
| AccountController.ClientIp | Controllers/AccountController.cs:494-502 | without a non-empty X-Forwarded-For header the key is the peer address, or "unknown" without one |
| AccountController.ClientIpFromHeader | Controllers/AccountController.cs:494-502 | a non-empty header gives its first comma-separated entry, trimmed, so the key holds no comma and no surrounding white space |
| AccountController.Outcome | Controllers/AccountController.cs:145-197 | an empty e-mail or password is refused before any lookup; sign-in succeeds exactly when `verifyLogin` finds the trimmed, lower-cased address with a matching password; an ADMIN role in any case goes to the admin pages |
| AccountController.Authenticate | Controllers/AccountController.cs:145-190 | the result is `Outcome`; only a successful sign-in with remember = "on" changes the users table, by storing the token with an expiry seven days on |
| AccountController.LoginPost | Controllers/AccountController.cs:115-206 | a locked client gets the lockout answer with the remaining seconds, its record is only looked up (created fresh when missing) and the users table does not change; otherwise the result is `Outcome`; a success removes the record and a failure counts one (`AfterFailure`); remember = "on" stores the token |
| AccountController.LoginPage | Controllers/AccountController.cs:73-108 | a signed-in session goes home; a live remember-me cookie signs its user in; otherwise the form, carrying the remaining lockout seconds when the client is locked |
| AccountController.Logout | Controllers/AccountController.cs:324-341 | the signed-in user's remember token and expiry are cleared, and no other row changes; without a session nothing changes |
| AccountController.FailuresCounted | Controllers/AccountController.cs:41-55 | below five failures a client is never locked, so every one of its failed requests is counted |
| AccountController.FiveFailuresLock | Controllers/AccountController.cs:21-55 | five failed requests on a fresh record lock the client for the full window after the fifth |
| AccountController.FewFailuresNeverLock | Controllers/AccountController.cs:47-55 | a record with fewer than five failures is never locked |
| AccountController.LockedRequestsIgnored | Controllers/AccountController.cs:126-131 | requests made while locked leave the record exactly as it was, however many there are |
| AccountController.RelockAfterExpiry | Controllers/AccountController.cs:47-55 | the count is not reset when the window passes, so one more failure locks the client again for a full 900 s |
| AccountController.FailureAfterSuccess | Controllers/AccountController.cs:120-166 | after a successful sign-in the next failure starts from a fresh record: count 1 |
| AccountController.ChecksComplete | Controllers/AccountController.cs:233-261 | the list of checks holds each of the five registration checks once, in source order |
| AccountController.RegisterErrors | Controllers/AccountController.cs:230-261 | an error is reported exactly when its check fails, each at most once |
| AccountController.RegisterAccepted | Controllers/AccountController.cs:230-270 | no error is reported iff the full name trims to 2–100 characters, the e-mail is valid, the phone is empty or valid, the password has at least 8 characters and it equals the confirmation |
| AccountController.RegisteredEmailKey | Controllers/AccountController.cs:231-287 | the address stored by registration and the one every lookup uses are both `ToLower(Trim(e))` |
| AccountController.CreateAccount | Controllers/AccountController.cs:284-292 | exactly one row is appended, with the normalised address, the sanitised name, role USER and the hash of the password |
| AccountController.NewAccount | Controllers/AccountController.cs:285-289 | a fresh user with the sanitised name, the normalised (non-null) address and role USER |
| AccountController.RegisterPost | Controllers/AccountController.cs:226-318 | with any failing check the errors are reported and nothing is stored, and errors are reported only then; an address already taken (after normalising) is refused; otherwise the answer is Registered and one row is added, and signing in with the same address and password finds exactly that row |
| AccountController.ChangePassword | Controllers/AccountController.cs:411-461 | the checks run in source order: session, confirmation, a null new password (which throws), length ≥ 8, old password checked by signing in with the stored address; the hash is rewritten iff all of them pass, and then only in that user's row; every other outcome leaves the table unchanged |
| BookingController.EffectiveQuantity | Controllers/BookingController.cs:104-116 | the quantity is always at least 1; a missing, blank or unparseable value, or one below 1, becomes 1 |
| BookingController.EffectiveQuantityKeepsValid | Controllers/BookingController.cs:105-110 | a parsed quantity of at least 1 is taken as it is |
| BookingController.ParsedTourId | Controllers/BookingController.cs:88-101 | a missing, blank or non-integer tour id gives no id; otherwise the parsed trimmed text |
| BookingController.RowSlots | Models/Tour.cs:124-127 | the free seats of a stored tour, never negative |
| BookingController.Refusal | Controllers/BookingController.cs:186-201 | a request is refused, in this order, when the tour is missing, not ACTIVE in any case, or short of seats (with the free count); no refusal exactly when all three pass |
| BookingController.CreateBooking | Controllers/BookingController.cs:183-226 | a refused request stores nothing; otherwise one PENDING row is appended with the user, the tour, the quantity, tour price × quantity and the trimmed notes; the tours table is never touched |
| BookingController.StoreBooking | Controllers/BookingController.cs:204-215 | one PENDING row is appended under the store's next id, with the user, the tour, the quantity, price × quantity and the trimmed notes |
| BookingController.PendingStored | Models/Booking.cs:91-94 | the status `createBooking` passes to `setStatus` is stored as PENDING |
| BookingController.BookPost | Controllers/BookingController.cs:71-141 | no session, an unusable tour id, or an action other than exactly "create" gives an error and changes nothing; otherwise `CreateBooking` runs with the effective quantity |
| BookingController.CapacityNotReserved | Controllers/BookingController.cs:198-215 | the seat check reads the tour row alone: a request for all s free seats passes and one for s + 1 is refused with s free; as `CreateBooking` never writes the tour table, the same request passes again |
| BookingController.CancelBooking | Controllers/BookingController.cs:293-343 | only a parseable id of an existing booking owned by the user and PENDING in any case is cancelled, and only its status changes; every refusal leaves the table unchanged; the store failure branch is never taken |
| BookingController.CancelIsFinal | Controllers/BookingController.cs:316-331 | a cancelled booking cannot be cancelled again, by anyone |
| BookingController.Annotate | Controllers/BookingController.cs:155-158 | each booking is kept in order and marked paid exactly when `hasPaidOrder` holds for it |
| BookingController.ShowUserBookings | Controllers/BookingController.cs:146-178 | the full list is the user's bookings newest first, each marked paid or not; the pending and confirmed lists are its PENDING and CONFIRMED members in order |
| BookingController.PendingNotConfirmed | Controllers/BookingController.cs:159-166 | no booking is both PENDING and CONFIRMED ignoring case |
| BookingController.ListingPartition | Controllers/BookingController.cs:149-167 | the pending and confirmed lists are disjoint, hold exactly the user's PENDING and CONFIRMED bookings, keep newest-first order, and together are no longer than the full list |
| BookingController.IndexGet | Controllers/BookingController.cs:33-65 | no session goes to the login page and changes nothing; "cancel" in any case runs the cancel flow, which succeeds iff the booking is cancellable; a success sets that row to CANCELLED and shows the whole listing (all, pending and confirmed) of the new table, and a refusal changes nothing and shows no list; any other action, or none, lists without changing anything |
| BookingDao.SetStatusWhere | DAOs/BookingDAO.cs:349-364 | only the status of the row with that id changes, and every other row is unchanged |
| BookingDao.RevenueAppend | DAOs/BookingDAO.cs:475-493 | the revenue of two parts of a table is the sum of their revenues |
| BookingDao.RevenueOnlyEarning | DAOs/BookingDAO.cs:475-493 | rows that are neither CONFIRMED nor COMPLETED add nothing, and no such rows give 0 |
| BookingDao.RevenueBounds | DAOs/BookingDAO.cs:475-493 | with non-negative totals, revenue is at least the total of any CONFIRMED or COMPLETED row |
| BookingDao.RevenueNonNegative | DAOs/BookingDAO.cs:475-493 | with non-negative totals, revenue is non-negative |
| BookingDao.SetStatusWhereAbsent | DAOs/BookingDAO.cs:349-364 | updating an id that is not in the table changes nothing |
| BookingDao.RevenueSetStatus | DAOs/BookingDAO.cs:475-493 | changing one row's status changes revenue by exactly that row's change in contribution |
| BookingDao.MappedStatus | DAOs/BookingDAO.cs:577 | a null status maps to PENDING; any other goes through `setStatus` |
| BookingDao.MappedStatusOfNormal | DAOs/BookingDAO.cs:577 | a stored status that is already normal maps to itself |
| BookingDao.MappedStatusThroughSetter | DAOs/BookingDAO.cs:577 | the mapping is `setStatus` of the column, or of "PENDING" for null |
| BookingDao.MapRow | DAOs/BookingDAO.cs:566-614 | a fresh booking: the mapped status, a null participant count or total read as 0, notes trimmed with null as "", and the joined tour price or 0 |
| BookingDao.MapRowText | DAOs/BookingDAO.cs:580-592 | the status is the mapped status (null read as PENDING) and the notes are trimmed, with null read as "" |
| BookingDao.FindKeyAgrees | DAOs/BookingDAO.cs:181-208 | with unique ids, the row `findById` returns is the one with that id |
| BookingDao.BookingStore.CreateBooking | DAOs/BookingDAO.cs:284-320 | one row is appended under a fresh positive id, stamped `now`, with the booking's fields and notes defaulting to ""; the id is returned |
| BookingDao.BookingStore.UpdateStatus | DAOs/BookingDAO.cs:349-364 | only that row's status changes, to the upper-cased value; true iff the row existed |
| BookingDao.BookingStore.ConfirmBooking | DAOs/BookingDAO.cs:369-372 | that row's status becomes CONFIRMED; true iff the row existed |
| BookingDao.BookingStore.CancelBooking | DAOs/BookingDAO.cs:377-380 | that row's status becomes CANCELLED; true iff the row existed |
| BookingDao.BookingStore.CompleteBooking | DAOs/BookingDAO.cs:385-388 | that row's status becomes COMPLETED; true iff the row existed |
| BookingDao.BookingStore.Delete | DAOs/BookingDAO.cs:393-407 | only that row is removed; true iff it existed |
| BookingDao.BookingStore.DeleteAllBookings | DAOs/BookingDAO.cs:412-424 | the table is empty afterwards and the answer is true |
| BookingDao.BookingStore.FindById | DAOs/BookingDAO.cs:181-208 | a row is found iff one has that id, and it is that row |
| BookingDao.BookingStore.CountByUserId | DAOs/BookingDAO.cs:325-344 | the number of the user's rows |
| BookingDao.BookingStore.CountByStatus | DAOs/BookingDAO.cs:429-448 | the number of rows whose status is exactly that value |
| BookingDao.BookingStore.GetTotalRevenue | DAOs/BookingDAO.cs:475-493 | the sum of totals over CONFIRMED and COMPLETED rows, 0 when there are none |
| BookingDao.BookingStore.GetBookingsByUserId | DAOs/BookingDAO.cs:213-243 | the user's rows, by id descending |
| BookingDao.BookingStore.GetRecentBookings | DAOs/BookingDAO.cs:525-561 | for limit > 0, the first `limit` rows by id descending; otherwise all rows by id descending, taking the un-parenthesised statement as executing |
| BookingDao.UserBookings | DAOs/BookingDAO.cs:213-243 | the user's list holds exactly the user's rows, strictly by id descending, and its length is the user's count |
| BookingDao.CountAfterCreate | DAOs/BookingDAO.cs:284-344 | a new booking adds one to its user's count and nothing to anyone else's |
| BookingDao.RevenueAfterCreate | DAOs/BookingDAO.cs:475-493 | a new booking that is neither CONFIRMED nor COMPLETED leaves revenue unchanged |
| BookingDao.RecentAreNewest | DAOs/BookingDAO.cs:525-561 | at most `limit` rows come back, newest first, and every row left out is older than every row returned |
| BookingModel.Booking.constructor | Models/Booking.cs:30-62 | a new booking is PENDING, with zero counts and no notes |
| BookingModel.Booking.SetStatus | Models/Booking.cs:91-94 | stores the trimmed, upper-cased status, or PENDING for null |
| BookingModel.Booking.SetNotes | Models/Booking.cs:103-106 | stores the trimmed notes, or null for null |
| BookingModel.Booking.FormattedStatus | Models/Booking.cs:171-181 | the label of the current status |
| BookingModel.NormalizeStatus | Models/Booking.cs:91-94 | the stored status is never longer than the given one |
| BookingModel.NormalizeStatusNormal | Models/Booking.cs:91-94 | a stored status has no surrounding white space and no lower-case letter |
| BookingModel.NormalizeStatusIdempotent | Models/Booking.cs:91-94 | `setStatus(getStatus())` changes nothing |
| BookingModel.NormalizeStatusWord | Models/Booking.cs:91-94 | any spelling of a status word, padded or in any case, is stored as the upper-case word |
| BookingModel.AtMostOneStatus | Models/Booking.cs:139-157 | at most one of `isPending`, `isConfirmed`, `isCancelled` and `isCompleted` holds |
| BookingModel.StatusLabel | Models/Booking.cs:171-181 | any status other than the four upper-case words is shown as it is |
| BookingModel.StatusLabelsDistinct | Models/Booking.cs:171-181 | the four labels differ from each other and from every status word |
| BookingModel.EqualsById | Models/Booking.cs:183-189 | two bookings are equal iff their ids are |
| CheckoutController.JoinedPrice | DAOs/BookingDAO.cs:608-609 | the joined tour price is present only when a tour with that id exists, and it is that tour's price |
| CheckoutController.JoinedText | DAOs/BookingDAO.cs:597-627 | a joined text column reads "" when there is no tour or the column is null, and its value otherwise |
| CheckoutController.Prefill | Controllers/CheckoutController.cs:53-67 | the form carries the booking and tour ids, quantity = participants (0 for null), total = the booking total (0 for null), price = the joined tour price (0 without one), the session's name, e-mail and phone, the trimmed notes, and no payment choice |
| CheckoutController.CheckoutPage | Controllers/CheckoutController.cs:23-70 | no session goes to login; NotFound iff the booking is missing or another user's; the form is shown iff the booking is the user's, has no PAID order and its mapped status is exactly CONFIRMED, and then for that booking; the already-paid redirect only for a booking with a PAID order |
| CheckoutController.IndexGet | Controllers/CheckoutController.cs:23-70 | the page shown is `CheckoutPage` of the current tables |
| CheckoutController.PaidOrder | Controllers/CheckoutController.cs:94-111 | the order has quantity max(1, submitted), total = submitted quantity × tour price (not clamped), note and provider "" when missing, payment method "COD" when missing, and status PAID |
| CheckoutController.PaidOrderTotalMatchesQuantity | Controllers/CheckoutController.cs:100-101 | the stored total equals stored quantity × price iff the submitted quantity was at least 1 or the tour is free |
| CheckoutController.Pay | Controllers/CheckoutController.cs:76-125 | corrected POST: no session goes to login; an order is placed iff the booking exists and is the user's, and it is a PAID order for that booking by that user; otherwise NotFound |
| CheckoutController.PayAsWritten | Controllers/CheckoutController.cs:76-125 | POST as written: for a signed-in user it throws iff the booking is missing (null reference) or its participant count is 0 or null (division by zero), before ownership is checked |
| CheckoutController.AsWrittenAgreesWhenItReturns | Controllers/CheckoutController.cs:76-125 | whenever the code as written returns, it returns what the corrected `Pay` does |
| CheckoutController.MissingBookingThrows | Controllers/CheckoutController.cs:84-91 | with no bookings, the code as written throws a null reference where the corrected one answers NotFound |
| CheckoutController.ZeroParticipantsThrows | Controllers/CheckoutController.cs:86-91 | a booking with a null participant count makes the code as written divide by zero, both for a stranger (where NotFound is meant) and for the owner (where an order is meant) |
| CheckoutController.IndexPost | Controllers/CheckoutController.cs:76-125 | the result is `Pay`; a placed order is appended to the orders table as stored by `Insert`, after which the booking counts as paid; otherwise the orders table is unchanged |
| CheckoutController.SecondPaymentAccepted | Controllers/CheckoutController.cs:43-114 | after a payment the form is refused as already paid, yet the POST still places another PAID order for the same booking |
| CheckoutController.UnconfirmedPaymentAccepted | Controllers/CheckoutController.cs:49-114 | the form is never shown for a booking that is not CONFIRMED, yet the POST pays for it |
| FavoritesController.Toggle | Controllers/FavoritesController.cs:47-78 | no session gives failure and changes nothing; otherwise a favourite pair is removed and any other pair added, and the answer is the membership afterwards, the negation of the one before |
| FavoritesController.ToggleReportsMembership | Controllers/FavoritesController.cs:57-72 | the pair is a favourite after a toggle iff it was not before |
| FavoritesController.ToggleTwice | Controllers/FavoritesController.cs:57-70 | two toggles of the same pair restore its membership |
| FavoritesController.ToggleOthers | Controllers/FavoritesController.cs:57-70 | a toggle changes the membership of no other pair |
| FavoritesDao.FavoritesStore.IsFavorite | DAOs/FavoritesDAO.cs:94-121 | true iff a row holds that (user, tour) pair |
| FavoritesDao.FavoritesStore.AddFavorite | DAOs/FavoritesDAO.cs:126-156 | an existing pair is left alone and the answer is true; otherwise one row is appended |
| FavoritesDao.FavoritesStore.RemoveFavorite | DAOs/FavoritesDAO.cs:161-184 | every row of the pair is deleted, and nothing else; true iff there was one |
| FavoritesDao.FavoritesStore.CountByUserId | DAOs/FavoritesDAO.cs:189-208 | the number of the user's rows |
| FavoritesDao.FavoritesStore.GetFavoritesByUserId | DAOs/FavoritesDAO.cs:35-89 | the user's rows, by favourite id descending |
| FavoritesDao.AddedFavored | DAOs/FavoritesDAO.cs:126-156 | after adding, the pair is a favourite |
| FavoritesDao.AddedIdempotent | DAOs/FavoritesDAO.cs:131-134 | adding a pair twice is adding it once |
| FavoritesDao.AddedCount | DAOs/FavoritesDAO.cs:126-156 | the user's count grows by one iff the pair was new; other users' counts stay the same |
| FavoritesDao.RemovedNotFavored | DAOs/FavoritesDAO.cs:161-184 | after removing, the pair is not a favourite |
| FavoritesDao.OtherPairsUnchanged | DAOs/FavoritesDAO.cs:126-184 | adding or removing one pair leaves every other pair's membership as it was |
| OrderDao.SetStatusWhere | DAOs/OderDAO.cs:79-106 | only the status of the order with that id changes |
| OrderDao.Stored | DAOs/OderDAO.cs:23-56 | the row written for an order keeps its user, booking, tour, quantity, total and status, under the given id and time |
| OrderDao.OrderStore.Insert | DAOs/OderDAO.cs:23-56 | exactly one row is appended under a fresh id, with the order's fields and null note, method and provider stored as "" |
| OrderDao.OrderStore.GetById | DAOs/OderDAO.cs:57-78 | null iff no order has that id; otherwise that order |
| OrderDao.OrderStore.UpdateStatus | DAOs/OderDAO.cs:79-106 | that order's status becomes the upper-cased value, and the answer is whether the order exists; a null status answers false and changes nothing |
| OrderDao.OrderStore.HasPaidOrder | DAOs/OderDAO.cs:108-121 | true iff some order for the booking has status exactly PAID |
| OrderDao.HasPaidAfterInsert | DAOs/OderDAO.cs:108-121 | inserting keeps every payment, and a booking becomes paid iff it already was or the new order is a PAID order for it |
| OrderDao.HasPaidAfterUpdate | DAOs/OderDAO.cs:79-121 | setting an existing order's status to anything that upper-cases to PAID makes its booking paid |
| OrderDao.HasPaidAfterOtherUpdate | DAOs/OderDAO.cs:79-121 | setting a status other than PAID creates no payment for any booking |
| PasswordUtil.HexOf | Utils/PasswordUtil.cs:31-36 | two lower-case hex digits per byte |
| PasswordUtil.ByteHexInjective | Utils/PasswordUtil.cs:33-35 | different bytes are spelled differently |
| PasswordUtil.HexOfInjective | Utils/PasswordUtil.cs:31-36 | different digests are spelled differently |
| PasswordUtil.HashPassword | Utils/PasswordUtil.cs:19-38 | null for null; otherwise the hex spelling of the digest, built byte by byte |
| PasswordUtil.HashShape | Utils/PasswordUtil.cs:19-38 | a SHA-256 hash is 64 lower-case hex characters |
| PasswordUtil.CheckPassword | Utils/PasswordUtil.cs:43-52 | false when either side is null |
| PasswordUtil.CheckPasswordOfHash | Utils/PasswordUtil.cs:43-52 | a password always checks against its own hash |
| PasswordUtil.CheckPasswordOnlyOwner | Utils/PasswordUtil.cs:43-52 | against the hash of q, only passwords with q's digest check, and without collisions only q |
| TourDao.MapTour | DAOs/TourDAO.cs:579-600 | a fresh tour with every column mapped, null numbers as 0, null text as "" trimmed, and a null status as ACTIVE |
| TourDao.MapText | DAOs/TourDAO.cs:582-596 | each text column goes through its trimming setter, with null read as "" and a null status read as ACTIVE |
| TourDao.MappedActive | DAOs/TourDAO.cs:579-600 | a tour whose status column is null or exactly ACTIVE is active once mapped |
| TourDao.TourStore.FindById | DAOs/TourDAO.cs:99-120 | null iff no tour has that id; otherwise the mapped row |
| TourDao.TourStore.GetToursByStatus | DAOs/TourDAO.cs:61-83 | the tours whose status is exactly that value, newest first |
| TourDao.TourStore.GetActiveTours | DAOs/TourDAO.cs:89-92 | the ACTIVE tours, newest first |
| TourDao.TourStore.GetRandomTours | DAOs/TourDAO.cs:516-535 | min(max(limit, 0), number of active tours) distinct active tours |
| TourDao.Shuffle | DAOs/TourDAO.cs:523-531 | the swap loop returns a permutation of its input |
| TourDao.TourStore.GetRelatedTours | DAOs/TourDAO.cs:544-574 | nothing for a null or blank destination; otherwise the first `limit` other active tours whose destination contains the trimmed text, newest first |
| TourDao.RelatedExcludesCurrent | DAOs/TourDAO.cs:544-574 | a related tour is never the current one and is always active |
| TourDao.OrderByDefault | DAOs/TourDAO.cs:432-457 | the order is "id DESC" iff the key is missing or not one of the six known keys |
| TourDao.OrderByDistinct | DAOs/TourDAO.cs:435-455 | the six known keys give six different orders |
| TourDao.FilteredQuery | DAOs/TourDAO.cs:329-457 | the statement and parameters built from the criteria, with one `?` per parameter |
| TourDao.CollectConditions | DAOs/TourDAO.cs:332-417 | the conditions and parameters are those of each field in turn, in form order |
| TourDao.KeywordCondition | DAOs/TourDAO.cs:336-343 | a non-blank keyword adds the three-way LIKE with three `%kw%` parameters |
| TourDao.DestinationCondition | DAOs/TourDAO.cs:346-350 | a non-blank destination other than exactly "all" adds one LIKE with its parameter |
| TourDao.PriceCondition | DAOs/TourDAO.cs:353-380 | a price bound that parses adds its condition and parameter; one that does not parse is ignored |
| TourDao.DurationCondition | DAOs/TourDAO.cs:383-402 | a parsed duration adds its condition; an unparseable one is ignored |
| TourDao.DepartureCondition | DAOs/TourDAO.cs:405-417 | a parsed date adds `departure_date >= ?`; an unparseable one is ignored |
| TourDao.AssembleSql | DAOs/TourDAO.cs:419-457 | the SELECT, the WHERE with the ACTIVE filter, and the ORDER BY |
| TourDao.OrderByOf | DAOs/TourDAO.cs:431-456 | the switch picks the order of the key |
| TourDao.ClausesBalanced | DAOs/TourDAO.cs:336-417 | every condition the builder can add holds one `?` per parameter it binds |
| TourDao.BalancedPlaceholders | DAOs/TourDAO.cs:336-417 | over such conditions, the `?` count equals the parameter count |
| TourDao.PlaceholdersMatch | DAOs/TourDAO.cs:329-457 | whatever the criteria, the statement holds exactly one `?` per parameter |
| TourDao.AlwaysActive | DAOs/TourDAO.cs:419-429 | with or without conditions, the statement keeps only ACTIVE tours |
| TourDao.NoCriteria | DAOs/TourDAO.cs:335-429 | a blank keyword and destination, a blank or unparseable minimum price, maximum price and departure date, and a blank duration or "all" give the bare ACTIVE query with no parameters |
| TourDao.DurationChoice | DAOs/TourDAO.cs:383-402 | duration 7 adds "duration > 5" with no parameter; any other number adds an equality with one parameter |
| TourModel.Tour.constructor | Models/Tour.cs:48-50 | a new tour is ACTIVE, with no text and zero counts |
| TourModel.Tour.SetName | Models/Tour.cs:74-77 | stores the trimmed name, or null |
| TourModel.Tour.SetDescription | Models/Tour.cs:80-83 | stores the trimmed description, or null |
| TourModel.Tour.SetDestination | Models/Tour.cs:86-89 | stores the trimmed destination, or null |
| TourModel.Tour.SetImageUrl | Models/Tour.cs:107-110 | stores the trimmed url, or null |
| TourModel.Tour.SetStatus | Models/Tour.cs:113-116 | stores the trimmed status with its case kept, or ACTIVE for null |
| TourModel.Tour.AvailableSlots | Models/Tour.cs:124-127 | max(0, max − current): never negative, and at most max when both counts are non-negative |
| TourModel.Tour.SafeImageUrl | Models/Tour.cs:135-154 | the default picture for an empty url; otherwise a result starting with "http", "/" or "~/" |
| TourModel.IsActiveStatusSpellings | Models/Tour.cs:119-122 | a status is active iff it is one of the 64 case spellings of ACTIVE; a padded one is not |
| TourModel.SetStatusActiveIgnoresCase | Models/Tour.cs:113-122 | "active" in any of the usual cases, padded or not, is active after `setStatus` |
| TourModel.EqualsById | Models/Tour.cs:162-168 | two tours are equal iff their ids are, symmetrically |
| TourModel.SafeImageUrlOf | Models/Tour.cs:135-154 | an empty url gives the default picture; one starting with "http", "/" or "~/" is kept; any other that contains "images/" in any case gets "/" in front; anything else gives the default picture |
| TourModel.SafeImageUrlShape | Models/Tour.cs:135-154 | every result is the default picture or starts with "http", "/" or "~/" |
| TourModel.SafeImageUrlStable | Models/Tour.cs:135-154 | applying the rule to its own result changes nothing |
| UserDao.Sanitize | DAOs/UserDAO.cs:674-677 | "" for null, otherwise no longer than the input |
| UserDao.Login | DAOs/UserDAO.cs:139-184 | a user is found only under the normalised address, and only when the password checks against the stored hash (null read as "") |
| UserDao.MapUser | DAOs/UserDAO.cs:556-587 | a fresh user with the row's fields and no password hash |
| UserDao.MapUserText | DAOs/UserDAO.cs:560-564 | the e-mail is normalised, no hash is kept, name and phone are trimmed (null phone read as ""), and a null role reads as USER, trimmed |
| UserDao.UserStore.Insert | DAOs/UserDAO.cs:297-349 | one row is appended under a fresh id with the lower-cased trimmed address, the given hash, the sanitised name, a phone that sanitises to "" as null, the user's role, and no remember token |
| UserDao.UserStore.Register | DAOs/UserDAO.cs:39-49 | the user gets the hash of the password, then is inserted |
| UserDao.UserStore.EmailExists | DAOs/UserDAO.cs:450-469 | true iff a row holds the normalised address |
| UserDao.UserStore.FindByEmail | DAOs/UserDAO.cs:101-131 | null iff no row holds the normalised address; otherwise that user, without its hash |
| UserDao.UserStore.FindById | DAOs/UserDAO.cs:73-94 | null iff no row has that id; otherwise that user, without its hash |
| UserDao.UserStore.VerifyLogin | DAOs/UserDAO.cs:139-184 | null iff `Login` finds nobody; otherwise that user, without its hash |
| UserDao.UserStore.Update | DAOs/UserDAO.cs:356-374 | only name, phone and role of that row change; true iff it exists |
| UserDao.UserStore.UpdatePassword | DAOs/UserDAO.cs:382-399 | only the hash of that row changes; true iff it exists |
| UserDao.UserStore.UpdateRole | DAOs/UserDAO.cs:407-422 | only the role of that row changes; true iff it exists |
| UserDao.UserStore.Delete | DAOs/UserDAO.cs:429-443 | only that row is removed; true iff it existed |
| UserDao.UserStore.UpdateRememberToken | DAOs/UserDAO.cs:596-616 | only token and expiry of that row change; true iff it exists |
| UserDao.UserStore.ClearRememberToken | DAOs/UserDAO.cs:623-637 | token and expiry of that row become null; true iff it exists |
| UserDao.UserStore.FindByRememberToken | DAOs/UserDAO.cs:644-669 | a user is found only for an equal token whose expiry is after `now` |
| UserDao.EmailKeyIsNormalizeEmail | DAOs/UserDAO.cs:101-113 | lookups normalise the address exactly as `User.setEmail` does |
| UserDao.LoginAfterRegister | DAOs/UserDAO.cs:139-184 | after registering an unused address, signing in with it and the same password finds the new row |
| UserDao.LoginNeedsPassword | DAOs/UserDAO.cs:139-184 | with a 32-byte digest, a successful sign-in means the stored hash is the hash of the typed password |
| UserDao.ClearedTokenNotFound | DAOs/UserDAO.cs:623-669 | after clearing, no token finds that user |
| UserDao.SetTokenFound | DAOs/UserDAO.cs:596-669 | after setting a token with a later expiry, looking it up finds a user |
| UserDao.ExpiredTokenNotFound | DAOs/UserDAO.cs:644-669 | no token is honoured once every expiry has passed |
| UserModel.UserRoleTrimmed | Models/User.cs:101-104 | USER and ADMIN have no surrounding white space, so `setRole` stores them unchanged |
| UserModel.User.constructor | Models/User.cs:33-44 | a new user has no data and role USER |
| UserModel.User.SetFullName | Models/User.cs:66-69 | stores the trimmed name, or null |
| UserModel.User.SetEmail | Models/User.cs:72-75 | stores the trimmed, lower-cased address, or null |
| UserModel.User.SetPhone | Models/User.cs:95-98 | stores the trimmed phone, or null |
| UserModel.User.SetRole | Models/User.cs:101-104 | stores the trimmed role with its case kept, or USER for null |
| UserModel.User.SetPassword | Models/User.cs:84-92 | `getHashedPassword` returns exactly what was stored |
| UserModel.User.GetPassword | Models/User.cs:78-81 | always null |
| UserModel.NormalizeEmail | Models/User.cs:72-75 | null iff null was given; never longer than the input |
| UserModel.NormalizeEmailNormal | Models/User.cs:72-75 | a stored address has no surrounding white space and no upper-case letter |
| UserModel.NormalizeEmailIdempotent | Models/User.cs:72-75 | normalising twice is normalising once |
| UserModel.NormalizeEmailIgnoresCase | Models/User.cs:72-75 | addresses that differ only in case and padding normalise alike |
| UserModel.EqualsByIdAndEmail | Models/User.cs:140-147 | two users are equal iff both id and e-mail are, symmetrically |
| ValidationUtil.MatchesEmailSound | Utils/ValidationUtil.cs:14 | every string the matcher accepts has the shape L@D.T |
| ValidationUtil.MatchesEmailComplete | Utils/ValidationUtil.cs:14 | every string of the shape L@D.T is accepted |
| ValidationUtil.MatchesEmailIff | Utils/ValidationUtil.cs:14 | the matcher accepts exactly the L@D.T strings |
| ValidationUtil.MatchesEmailAtEndIff | Utils/ValidationUtil.cs:14-26 | with the `$` anchor, also the L@D.T strings followed by one final newline |
| ValidationUtil.IsValidEmail | Utils/ValidationUtil.cs:20-28 | true iff the address has the shape L@D.T, possibly followed by one final newline; false for null |
| ValidationUtil.EmailShapeOneAt | Utils/ValidationUtil.cs:14 | an L@D.T string holds exactly one `@` |
| ValidationUtil.ValidEmailHasOneAt | Utils/ValidationUtil.cs:14-28 | every valid address holds exactly one `@` |
| ValidationUtil.IsValidPhone | Utils/ValidationUtil.cs:15-41 | without a final newline, valid exactly when the text is 10 or 11 ASCII digits; with one (which `$` allows), exactly when the text before it is; null and empty are refused, so every valid phone has 10–12 characters |
| ValidationUtil.TrimmedPhone | Utils/ValidationUtil.cs:15-41 | on a trimmed string, valid iff 10 or 11 ASCII digits |
| ValidationUtil.IsValidPassword | Utils/ValidationUtil.cs:46-60 | true iff not null and at least 6 characters |
| ValidationUtil.StripTags | Utils/ValidationUtil.cs:65-74 | never longer than the input, and only its characters |
| ValidationUtil.StripTagsNoTag | Utils/ValidationUtil.cs:65-74 | no `<` in the result is followed later by `>` |
| ValidationUtil.StripTagsOfNoTag | Utils/ValidationUtil.cs:65-74 | text without tags is kept as it is |
| ValidationUtil.StripTagsIdempotent | Utils/ValidationUtil.cs:65-74 | stripping twice is stripping once |
| ValidationUtil.SanitizeString | Utils/ValidationUtil.cs:65-74 | null iff the input is null or empty; otherwise tag-free and no longer than the input |
| ValidationUtil.SanitizeTwice | Utils/ValidationUtil.cs:65-74 | sanitising twice is sanitising once, except that all-tag text becomes "" and then null |
| ValidationUtil.Truncate | Utils/ValidationUtil.cs:79-87 | null or empty input comes back unchanged; otherwise a negative maxLength throws, and any other gives the prefix of length min(length, maxLength) |

## Left out

- Database access, sessions, cookies, view data, TempData messages and redirects. These
  are I/O: tables are in-memory sequences, and each action returns a result value.
- Access compares text case-insensitively in `=` and `LIKE`. The model compares
  exactly, as the SQL text reads.
- TourDao.TourStore.GetRelatedTours: `destination LIKE ?` with `%destination%` is
  modelled as substring containment (`RelatedTo`). In Access, `_`, `%` and `[...]`
  inside the bound destination still act as wildcards ("a_b" matches "axb"), so
  `RelatedExcludesCurrent` and the related list do not cover those matches.
- BookingDao.BookingStore.GetRecentBookings: for a limit of 0 or less the source
  builds two LEFT JOINs without the parentheses Access requires
  (DAOs/BookingDAO.cs:527-532), and nothing catches the resulting error. The model
  takes that statement as executing and returning every row, newest first. The only
  caller passes 10.
- TourModel.SafeImageUrlOf: the "http", "/" and "~/" prefix tests are ordinal, as is
  `TourModel.Tour.SafeImageUrl` built on it. C# `StartsWith(string)` compares
  culture-sensitively and skips ignorable code points such as the soft hyphen U+00AD, so
  for the url "\u00ADhttp://x/a.png" the source keeps the url and the model gives the
  default picture.
- Text.ToUpper and Text.ToLower map ASCII letters only. .NET `ToUpper()` and
  `ToLower()` are culture-sensitive and cover all of Unicode ("é" becomes "É"), and
  `OrdinalIgnoreCase` folds all of Unicode. The gap reaches every member built on
  them: `UserModel.NormalizeEmail`, `UserDao.EmailKey`, `BookingModel.NormalizeStatus`,
  `UpdateStatus` in `BookingDao` and `OrderDao`, `Text.EqualsIgnoreCase` with the
  ACTIVE, PENDING and CONFIRMED tests built on it, and `TourModel.SafeImageUrlOf`.
- ValidationUtil.IsValidPassword: C# `Length` and `Substring` count UTF-16 code units,
  and a Dafny `char` is a Unicode scalar value. For characters outside the Basic
  Multilingual Plane the counts differ: three emoji have Length 6 in C#, so the
  source accepts them as a password and the model refuses them.
- AccountController.RegisterErrors: the 2-100 name length and the 8-character
  password bound count Unicode scalar values, not UTF-16 code units, as above.
- AccountController.RegisterAccepted: the same length bounds as `RegisterErrors`,
  counted the same way.
- AccountController.ChangePassword: the 8-character bound counts Unicode scalar
  values, not UTF-16 code units.
- ValidationUtil.Truncate: the prefix is counted in Unicode scalar values. A C#
  `Substring` counts UTF-16 code units and can split a surrogate pair, which the
  model cannot express.
- Executing the statement that `getFilteredTours` builds. The model stops at the
  statement text and its parameters.
- `generateSecureToken`, `generateSalt` and `System.Random`. These are randomness: the
  token is a parameter, and the shuffle's swap index is an arbitrary choice in [0, i].
- The SHA-256 digest and UTF-8 encoding. These are cryptography, and the digest is a
  parameter.
- Parsing and culture formatting of dates and numbers: `getFormattedPrice`,
  `getFormattedDate`, `setCreatedAt`, `setTokenExpiry` and `ToString` of dates. These
  are formatting; parsing is a parameter.
- Concurrency: the shared `loginAttempts` dictionary, the connection lock, and races
  between checking capacity or a favourite and inserting. The model is sequential.
- 32-bit overflow of `int` and the `decimal` range. The model uses unbounded integers.
- AdminController and HomeController. They pass through to the DAOs behind a role
  check.
- The admin queries of the DAOs: `getAllUsers`, `getUsersByRole`, search and filter,
  and the counts by role. The same goes for `getAllBookings`, `searchBookings`,
  `filterBookingsByStatusAndSearch`, `getRevenueByDateRange`, `searchTours`, tour
  insert, update and delete, and `getAllDestinations`. These are only used by
  administration pages.
- EditProfile and UpdateProfile of the account controller. They read and write the
  profile through `UserDAO.update`, which is modelled.
- The `catch` blocks of sign-in, registration and password change, and registration's
  "register failed" branch. The in-memory store does not fail.
- UserDao.UserStore.Insert: requires a non-null e-mail, because the source dereferences
  it.
- BookingController.CreateBooking: has no branch for a new id ≤ 0. The store always
  returns a positive id.
- CheckoutController.IndexPost: has no "payment failed" view. `Insert` always reports
  success in the model.
- BookingController.IndexGet: after a cancel that reaches the store it shows the list, as
  if `cancelBooking` ended with `return View()`. The source's `cancelBooking` has no final
  `return`.
- BookingController.ShowUserBookings: calls `hasPaidOrder`, where the source calls an
  `orderDAO` field it never declares.
- CheckoutController.IndexGet: calls `hasPaidOrder`, where the source calls it
  `HasPaidOrder`.
- `mapOrder` reads a `price_total` column that `Insert` never writes. The model keeps
  the total that `Insert` stores.
- AccountController.LoginGuard: holds `Attempt` values in a map instead of objects
  updated in place. No record is shared between clients, so no aliasing is lost.
- The display fields of joined rows other than those on the checkout form: the user's
  name and e-mail, and the tour's departure and duration.
- The columns joined by `getFavoritesByUserId`. Its rows are the favourites themselves.
- `Models/BookingDetail.cs`, `Models/Order.cs`, `Models/CheckoutViewModel.cs` and
  `Models/RegisterViewModel.cs` have no behaviour. The order and the checkout form are
  datatypes, and the register view model is not used by the action.

## Findings

| source | as written | input that shows it | evidently intended | confidence | as-written member | corrected member |
|---|---|---|---|---|---|---|
| Controllers/CheckoutController.cs:84-91 | the POST computes `booking.getTotalPrice() / booking.getNumParticipants()` before checking `booking == null` | a signed-in user posting a booking id that does not exist | NotFound for a missing booking, as the null check right after says | high (not executed) | CheckoutController.MissingBookingThrows | CheckoutController.Pay |
| Controllers/CheckoutController.cs:86 | the unused unit price divides by the participant count, which the mapping reads as 0 for a null column | booking 7 of user 2 with a null participant count, posted by user 1 or by user 2 | NotFound for another user's booking, and an order for the owner, since the quotient is never used | high (not executed) | CheckoutController.ZeroParticipantsThrows | CheckoutController.Pay |
