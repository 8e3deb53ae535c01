/**
 * Controllers/BookingController.cs: the JSON endpoint that books a tour, the cancel
 * action, and the page that lists a user's bookings split into pending and confirmed
 * ones.  `int.Parse` and `int.TryParse` are the parameter `parseInt` (None where the
 * source throws or answers false); the session's user id is a parameter.
 */
module BookingController {
  import opened Wrappers
  import opened Text
  import opened Tables
  import opened TourModel
  import opened BookingModel
  import opened BookingDao
  import opened TourDao
  import OrderDao

  // ------------------------------------------------------------------ input parsing

  /**
   * The quantity of a booking request: a missing, blank or unparseable value, and any
   * value below 1, become 1.
   */
  function EffectiveQuantity(quantity: Option<string>, parseInt: string -> Option<int>): (r: int)
    ensures r >= 1
    ensures IsBlank(quantity) ==> r == 1
    ensures !IsBlank(quantity) ==>
      var parsed := parseInt(Trim(quantity.value));
      r == (if parsed.Some? && parsed.value >= 1 then parsed.value else 1)
  {
    if IsBlank(quantity) then 1
    else
      match parseInt(Trim(quantity.value))
      case None => 1
      case Some(n) => if n < 1 then 1 else n
  }

  /** A quantity the user typed as a number of at least 1 is taken as it is. */
  lemma EffectiveQuantityKeepsValid(quantity: string, n: int, parseInt: string -> Option<int>)
    requires Trim(quantity) != "" && parseInt(Trim(quantity)) == Some(n) && n >= 1
    ensures EffectiveQuantity(Some(quantity), parseInt) == n
  {
  }

  /** The tour id of a request: None when missing, blank or not an integer. */
  function ParsedTourId(tourId: Option<string>, parseInt: string -> Option<int>): (r: Option<int>)
    ensures IsBlank(tourId) ==> r.None?
    ensures !IsBlank(tourId) ==> r == parseInt(Trim(tourId.value))
  {
    if IsBlank(tourId) then None else parseInt(Trim(tourId.value))
  }

  // ------------------------------------------------------------------ createBooking

  /** What the booking endpoint answers. */
  datatype BookResult =
    | NotSignedIn
    | InvalidTour
    | InvalidAction
    | TourMissing
    | TourInactive
    | NotEnoughSlots(available: int)
    | Booked(bookingId: int)

  /** The status `findById` gives the tour of a row: the column trimmed, "ACTIVE" for null. */
  predicate RowActive(r: TourRow) {
    IsActiveStatus(Trim(r.status.GetOr(Active)))
  }

  /** `getAvailableSlots` of the tour of a row, null counts read as 0. */
  function RowSlots(r: TourRow): (n: int)
    ensures n >= 0 && n >= r.maxParticipants.GetOr(0) - r.currentParticipants.GetOr(0)
  {
    if r.maxParticipants.GetOr(0) - r.currentParticipants.GetOr(0) > 0
    then r.maxParticipants.GetOr(0) - r.currentParticipants.GetOr(0) else 0
  }

  /**
   * Why `createBooking` turns a request down, checked in the source's order, or None
   * when it books: the tour must exist, be ACTIVE in some case, and have room for the
   * quantity.
   */
  function Refusal(tour: Option<TourRow>, quantity: int): (r: Option<BookResult>)
    ensures r.None? <==> tour.Some? && RowActive(tour.value) && quantity <= RowSlots(tour.value)
    ensures r == Some(TourMissing) <==> tour.None?
    ensures r == Some(TourInactive) <==> tour.Some? && !RowActive(tour.value)
    ensures r.Some? && r.value.NotEnoughSlots? ==>
      tour.Some? && RowActive(tour.value) && r.value.available == RowSlots(tour.value) < quantity
    ensures r.Some? ==> r.value in {TourMissing, TourInactive} || r.value.NotEnoughSlots?
  {
    if tour.None? then Some(TourMissing)
    else if !RowActive(tour.value) then Some(TourInactive)
    else if quantity > RowSlots(tour.value) then Some(NotEnoughSlots(RowSlots(tour.value)))
    else None
  }

  /** The row `createBooking` stores: PENDING, the price of the tour times the quantity, notes trimmed or "". */
  function NewBooking(id: int, userId: int, tourId: int, quantity: int, price: int,
                      notes: Option<string>, now: int): BookingRow
  {
    BookingRow(id, userId, tourId, Some(now), Some(Pending), Some(quantity), Some(price * quantity),
      Some(TrimOrNull(notes).GetOr("")))
  }

  /**
   * The private `createBooking`: look the tour up, refuse as `Refusal` says, otherwise
   * store one PENDING booking priced at tour price times quantity.  The tour table is
   * not touched: no seats are taken off the tour.
   */
  method CreateBooking(tours: TourStore, bookings: BookingStore, userId: int, tourId: int, quantity: int,
                       notes: Option<string>, now: int)
    returns (result: BookResult)
    requires bookings.Valid()
    modifies bookings
    ensures bookings.Valid()
    ensures var tour := FindKey(tours.rows, TourId, tourId);
      && (Refusal(tour, quantity).Some? ==>
            result == Refusal(tour, quantity).value && bookings.rows == old(bookings.rows))
      && (Refusal(tour, quantity).None? ==>
            && result == Booked(old(bookings.nextId))
            && bookings.rows == old(bookings.rows) +
                 [NewBooking(old(bookings.nextId), userId, tourId, quantity, tour.value.price.GetOr(0), notes, now)])
  {
    var tour := tours.FindById(tourId);
    if tour == null {
      return TourMissing;
    }
    MappedTourChecks(tour, FindKey(tours.rows, TourId, tourId).value);
    if !tour.IsActive() {
      return TourInactive;
    }
    if quantity > tour.AvailableSlots() {
      return NotEnoughSlots(tour.AvailableSlots());
    }
    var id := StoreBooking(bookings, userId, tourId, quantity, tour.price, notes, now);
    result := Booked(id);
  }

  /** The tour object `findById` maps from a row passes the checks exactly when the row does. */
  lemma MappedTourChecks(t: Tour, r: TourRow)
    requires MapsRow(t, r)
    ensures t.IsActive() == RowActive(r)
    ensures t.AvailableSlots() == RowSlots(r)
    ensures t.price == r.price.GetOr(0)
  {
  }

  /** The booking `createBooking` builds through the model's setters, handed to the store. */
  method StoreBooking(bookings: BookingStore, userId: int, tourId: int, quantity: int, price: int,
                      notes: Option<string>, now: int)
    returns (id: int)
    requires bookings.Valid()
    modifies bookings
    ensures bookings.Valid()
    ensures id == old(bookings.nextId)
    ensures bookings.rows == old(bookings.rows) + [NewBooking(id, userId, tourId, quantity, price, notes, now)]
  {
    var booking := new Booking();
    booking.userId := userId;
    booking.tourId := tourId;
    booking.SetStatus(Some(Pending));
    PendingStored();
    booking.numParticipants := quantity;
    booking.totalPrice := price * quantity;
    booking.SetNotes(notes);
    id := bookings.CreateBooking(booking, now);
  }

  lemma PendingStored()
    ensures NormalizeStatus(Some(Pending)) == Pending
  {
    NormalizeStatusOfWord(Pending);
  }

  /**
   * POST `Index`: a signed-in user, a tour id that parses and the action "create"
   * (exactly) lead to `createBooking` with the effective quantity; every other request
   * is answered with an error and stores nothing.
   */
  method BookPost(tours: TourStore, bookings: BookingStore, sessionUser: Option<int>, action: Option<string>,
                  tourId: Option<string>, quantity: Option<string>, notes: Option<string>,
                  parseInt: string -> Option<int>, now: int)
    returns (result: BookResult)
    requires bookings.Valid()
    modifies bookings
    ensures bookings.Valid()
    ensures sessionUser.None? ==> result == NotSignedIn
    ensures sessionUser.Some? && ParsedTourId(tourId, parseInt).None? ==> result == InvalidTour
    ensures sessionUser.Some? && ParsedTourId(tourId, parseInt).Some? && action != Some("create") ==>
      result == InvalidAction
    ensures !result.Booked? ==> bookings.rows == old(bookings.rows)
    ensures sessionUser.Some? && ParsedTourId(tourId, parseInt).Some? && action == Some("create") ==>
      var tour := FindKey(tours.rows, TourId, ParsedTourId(tourId, parseInt).value);
      var q := EffectiveQuantity(quantity, parseInt);
      && (Refusal(tour, q).Some? ==> result == Refusal(tour, q).value)
      && (Refusal(tour, q).None? ==>
            && result == Booked(old(bookings.nextId))
            && bookings.rows == old(bookings.rows) +
                 [NewBooking(old(bookings.nextId), sessionUser.value, tour.value.id, q, tour.value.price.GetOr(0), notes, now)])
    ensures result.Booked? ==> sessionUser.Some? && ParsedTourId(tourId, parseInt).Some? && action == Some("create")
  {
    if sessionUser.None? {
      return NotSignedIn;
    }
    var id := ParsedTourId(tourId, parseInt);
    if id.None? {
      return InvalidTour;
    }
    var q := EffectiveQuantity(quantity, parseInt);
    if action != Some("create") {
      return InvalidAction;
    }
    result := CreateBooking(tours, bookings, sessionUser.value, id.value, q, notes, now);
  }

  /**
   * Capacity is checked but never reserved: the check reads the tour row alone, which
   * accepts a request for all `s` free seats and refuses one more.  `CreateBooking`
   * leaves the tour table as it was, so the same request is accepted again, booking
   * `2 * s` seats against `s`.
   */
  lemma CapacityNotReserved(tour: TourRow, s: int)
    requires RowActive(tour) && 1 <= s == RowSlots(tour)
    ensures Refusal(Some(tour), s).None?
    ensures Refusal(Some(tour), s + 1) == Some(NotEnoughSlots(s))
  {
  }

  // ------------------------------------------------------------------ cancelBooking

  /** What the cancel action reports. */
  datatype CancelResult = BadBookingId | BookingMissing | NotOwner | NotPending | CancelSucceeded | CancelFailed

  /** The booking exists, belongs to the user, and its status (as `findById` maps it) is PENDING in any case. */
  predicate Cancellable(rows: seq<BookingRow>, userId: int, bookingId: int) {
    var b := FindKey(rows, RowId, bookingId);
    b.Some? && b.value.userId == userId && EqualsIgnoreCase(Pending, MappedStatus(b.value))
  }

  /**
   * The private `cancelBooking`: the `bookingId` query value must be present and an
   * integer; the booking must exist, be the user's and be PENDING.  Only then is its
   * status set to CANCELLED; every refusal leaves the table as it was.
   */
  method CancelBooking(bookings: BookingStore, userId: int, bookingId: Option<string>,
                       parseInt: string -> Option<int>)
    returns (result: CancelResult)
    requires bookings.Valid()
    modifies bookings`rows
    ensures bookings.Valid()
    ensures IsBlank(bookingId) ==> result == BadBookingId
    ensures !IsBlank(bookingId) && parseInt(bookingId.value).None? ==> result == BadBookingId
    ensures !IsBlank(bookingId) && parseInt(bookingId.value).Some? ==>
      var id := parseInt(bookingId.value).value;
      var b := FindKey(old(bookings.rows), RowId, id);
      && (b.None? ==> result == BookingMissing)
      && (b.Some? && b.value.userId != userId ==> result == NotOwner)
      && (b.Some? && b.value.userId == userId && !EqualsIgnoreCase(Pending, MappedStatus(b.value)) ==> result == NotPending)
      && (result == CancelSucceeded <==> Cancellable(old(bookings.rows), userId, id))
      && (result == CancelSucceeded ==> bookings.rows == SetStatusWhere(old(bookings.rows), id, Cancelled))
    ensures result != CancelFailed
    ensures result != CancelSucceeded ==> bookings.rows == old(bookings.rows)
  {
    if IsBlank(bookingId) {
      return BadBookingId;
    }
    var parsed := parseInt(bookingId.value);
    if parsed.None? {
      return BadBookingId;
    }
    var id := parsed.value;
    var booking := bookings.FindById(id);
    if booking.None? {
      return BookingMissing;
    }
    if booking.value.userId != userId {
      return NotOwner;
    }
    if !EqualsIgnoreCase(Pending, MappedStatus(booking.value)) {
      return NotPending;
    }
    FindKeyAgrees(bookings.rows, id, booking.value);
    var ok := bookings.CancelBooking(id);
    result := if ok then CancelSucceeded else CancelFailed;
  }

  /** A cancelled booking cannot be cancelled again, by anyone. */
  lemma CancelIsFinal(rows: seq<BookingRow>, userId: int, otherUser: int, id: int)
    ensures !Cancellable(SetStatusWhere(rows, id, Cancelled), otherUser, id)
  {
    var after := SetStatusWhere(rows, id, Cancelled);
    var b := FindKey(after, RowId, id);
    if b.Some? {
      var k :| 0 <= k < |after| && after[k] == b.value;
      assert b.value.status == Some(Cancelled);
      NormalizeStatusOfWord(Cancelled);
      EqualsIgnoreCaseDistinct(Cancelled, Pending, Cancelled);
      ToUpperOfUpperWord(Cancelled);
    }
  }

  // ------------------------------------------------------------------ showUserBookings

  /** A booking on the list page, with whether an order has paid for it. */
  datatype Listed = Listed(row: BookingRow, isPaid: bool)

  /** What `showUserBookings` puts in the view. */
  datatype BookingsView = BookingsView(all: seq<Listed>, pending: seq<Listed>, confirmed: seq<Listed>)

  /** Each booking with the `hasPaidOrder` answer for it. */
  function Annotate(rows: seq<BookingRow>, orders: seq<OrderDao.OrderRow>): (r: seq<Listed>)
    ensures |r| == |rows|
    ensures forall i :: 0 <= i < |rows| ==> r[i].row == rows[i] && (r[i].isPaid <==> OrderDao.HasPaid(orders, rows[i].id))
  {
    seq(|rows|, i requires 0 <= i < |rows| => Listed(rows[i], OrderDao.HasPaid(orders, rows[i].id)))
  }

  function ListedId(l: Listed): int { l.row.id }

  /** `"PENDING".Equals(status, OrdinalIgnoreCase)` on the mapped status. */
  function PendingItem(): Listed -> bool {
    (l: Listed) => EqualsIgnoreCase(Pending, MappedStatus(l.row))
  }

  /** `"CONFIRMED".Equals(status, OrdinalIgnoreCase)` on the mapped status. */
  function ConfirmedItem(): Listed -> bool {
    (l: Listed) => EqualsIgnoreCase(Confirmed, MappedStatus(l.row))
  }

  /**
   * The private `showUserBookings`: the user's bookings newest first, each marked paid
   * or not, then split into the pending and the confirmed ones in one pass.
   */
  method ShowUserBookings(bookings: BookingStore, orders: OrderDao.OrderStore, userId: int) returns (view: BookingsView)
    ensures view.all == Annotate(SelectDesc(bookings.rows, OfUser(userId)), orders.rows)
    ensures view.pending == Filter(view.all, PendingItem())
    ensures view.confirmed == Filter(view.all, ConfirmedItem())
  {
    var rows := bookings.GetBookingsByUserId(userId);
    var all, pending, confirmed := [], [], [];
    var i := 0;
    while i < |rows|
      invariant 0 <= i <= |rows|
      invariant all == Annotate(rows[..i], orders.rows)
      invariant pending == Filter(all, PendingItem())
      invariant confirmed == Filter(all, ConfirmedItem())
    {
      var paid := orders.HasPaidOrder(rows[i].id);
      var item := Listed(rows[i], paid);
      AnnotateStep(rows, orders.rows, i);
      FilterStep(all, item, PendingItem());
      FilterStep(all, item, ConfirmedItem());
      if EqualsIgnoreCase(Pending, MappedStatus(rows[i])) {
        pending := pending + [item];
      } else if EqualsIgnoreCase(Confirmed, MappedStatus(rows[i])) {
        confirmed := confirmed + [item];
      }
      all := all + [item];
      i := i + 1;
    }
    assert rows[..i] == rows;
    view := BookingsView(all, pending, confirmed);
  }

  lemma AnnotateStep(rows: seq<BookingRow>, orders: seq<OrderDao.OrderRow>, i: int)
    requires 0 <= i < |rows|
    ensures Annotate(rows[..i + 1], orders) == Annotate(rows[..i], orders) + [Listed(rows[i], OrderDao.HasPaid(orders, rows[i].id))]
  {
  }

  lemma FilterStep(all: seq<Listed>, item: Listed, p: Listed -> bool)
    ensures Filter(all + [item], p) == Filter(all, p) + (if p(item) then [item] else [])
  {
    FilterAppend(all, [item], p);
  }

  /** No status is both PENDING and CONFIRMED ignoring case. */
  lemma PendingNotConfirmed(l: Listed)
    ensures !(PendingItem()(l) && ConfirmedItem()(l))
  {
    EqualsIgnoreCaseDistinct(MappedStatus(l.row), Pending, Confirmed);
  }

  /** Together the two lists hold no more bookings than there are. */
  lemma {:induction false} PartitionSizes(all: seq<Listed>)
    ensures |Filter(all, PendingItem())| + |Filter(all, ConfirmedItem())| <= |all|
  {
    if all != [] {
      PartitionSizes(all[1..]);
      PendingNotConfirmed(all[0]);
    }
  }

  /**
   * The pending and confirmed lists are disjoint, hold exactly the user's PENDING and
   * CONFIRMED bookings, and keep the newest-first order of the full list.
   */
  lemma ListingPartition(rows: seq<BookingRow>, orders: seq<OrderDao.OrderRow>, userId: int)
    requires Increasing(rows, RowId)
    ensures var view := Annotate(SelectDesc(rows, OfUser(userId)), orders);
      var pending := Filter(view, PendingItem());
      var confirmed := Filter(view, ConfirmedItem());
      && (forall l :: l in pending ==> l !in confirmed)
      && (forall l :: l in pending <==> l in view && EqualsIgnoreCase(Pending, MappedStatus(l.row)))
      && (forall l :: l in confirmed <==> l in view && EqualsIgnoreCase(Confirmed, MappedStatus(l.row)))
      && (forall l :: l in view ==> l.row.userId == userId)
      && Decreasing(pending, ListedId) && Decreasing(confirmed, ListedId)
      && |pending| + |confirmed| <= |view|
  {
    var mine := SelectDesc(rows, OfUser(userId));
    var view := Annotate(mine, orders);
    SelectDescDecreasing(rows, OfUser(userId), RowId);
    assert Decreasing(view, ListedId);
    FilterMembers(view, PendingItem());
    FilterMembers(view, ConfirmedItem());
    forall l | l in view && PendingItem()(l) ensures !ConfirmedItem()(l) {
      PendingNotConfirmed(l);
    }
    FilterDecreasing(view, PendingItem(), ListedId);
    FilterDecreasing(view, ConfirmedItem(), ListedId);
    PartitionSizes(view);
  }

  // ------------------------------------------------------------------ GET Index

  /** What GET `Index` shows. */
  datatype Page =
    | ToLogin
    | Listing(view: BookingsView)
    /** The cancel action, and the list shown after the store was asked to cancel. */
    | AfterCancel(outcome: CancelResult, shown: Option<BookingsView>)

  /** The action of GET `Index`: "cancel" in any case cancels, anything else (or nothing) lists. */
  predicate IsCancelAction(action: Option<string>) {
    !IsNullOrEmpty(action) && ToLower(action.value) == "cancel"
  }

  /**
   * GET `Index`: without a session user, the login page; with the cancel action, the
   * cancel flow (whose success or store failure ends on the list); otherwise the list.
   */
  method IndexGet(bookings: BookingStore, orders: OrderDao.OrderStore, sessionUser: Option<int>, action: Option<string>,
                  bookingId: Option<string>, parseInt: string -> Option<int>)
    returns (page: Page)
    requires bookings.Valid()
    modifies bookings`rows
    ensures bookings.Valid()
    ensures sessionUser.None? ==> page == ToLogin && bookings.rows == old(bookings.rows)
    ensures sessionUser.Some? && !IsCancelAction(action) ==>
      bookings.rows == old(bookings.rows) &&
      page == Listing(BookingsView(
        Annotate(SelectDesc(bookings.rows, OfUser(sessionUser.value)), orders.rows),
        Filter(Annotate(SelectDesc(bookings.rows, OfUser(sessionUser.value)), orders.rows), PendingItem()),
        Filter(Annotate(SelectDesc(bookings.rows, OfUser(sessionUser.value)), orders.rows), ConfirmedItem())))
    ensures sessionUser.Some? && IsCancelAction(action) ==>
      var all := Annotate(SelectDesc(bookings.rows, OfUser(sessionUser.value)), orders.rows);
      && page.AfterCancel?
      && (page.outcome == CancelSucceeded <==>
            !IsBlank(bookingId) && parseInt(bookingId.value).Some? &&
            Cancellable(old(bookings.rows), sessionUser.value, parseInt(bookingId.value).value))
      && (page.outcome == CancelSucceeded ==>
            bookings.rows == SetStatusWhere(old(bookings.rows), parseInt(bookingId.value).value, Cancelled))
      && (page.outcome != CancelSucceeded ==> bookings.rows == old(bookings.rows))
      && (page.shown.Some? <==> page.outcome == CancelSucceeded)
      && (page.shown.Some? ==>
            page.shown.value == BookingsView(all, Filter(all, PendingItem()), Filter(all, ConfirmedItem())))
  {
    if sessionUser.None? {
      return ToLogin;
    }
    if IsCancelAction(action) {
      var outcome := CancelBooking(bookings, sessionUser.value, bookingId, parseInt);
      if outcome == CancelSucceeded || outcome == CancelFailed {
        var view := ShowUserBookings(bookings, orders, sessionUser.value);
        return AfterCancel(outcome, Some(view));
      }
      return AfterCancel(outcome, None);
    }
    var view := ShowUserBookings(bookings, orders, sessionUser.value);
    page := Listing(view);
  }
}
