/**
 * Controllers/CheckoutController.cs: paying for a confirmed booking.  The form is
 * offered only to the booking's owner, only while the booking is CONFIRMED and has
 * no PAID order; submitting the form records a PAID order.  The session is a
 * parameter, the clock is `now`, and the joined `tours` table supplies the price
 * and display fields that `findById` reads through its LEFT JOIN.
 */
module CheckoutController {
  import opened Wrappers
  import opened Text
  import opened Tables
  import opened BookingModel
  import opened BookingDao
  import opened TourDao
  import OrderDao

  /** What the session holds for a signed-in user (`userId` null when signed out). */
  datatype Session = Session(
    userId: Option<int>,
    fullName: Option<string>,
    email: Option<string>,
    phone: Option<string>)

  /** Models/CheckoutViewModel.cs: the prefilled form, and what the POST receives back. */
  datatype CheckoutViewModel = CheckoutViewModel(
    bookingId: int,
    tourId: int,
    tourName: string,
    destination: string,
    imageUrl: string,
    price: int,
    quantity: int,
    total: int,
    fullName: Option<string>,
    email: Option<string>,
    phone: Option<string>,
    note: Option<string>,
    paymentMethod: Option<string>,
    paymentProvider: Option<string>)

  /** The GET outcome: a redirect, NotFound, or the form. */
  datatype Page =
    | LoginRedirect
    | NotFoundPage
    | PaidRedirect
    | UnconfirmedRedirect
    | Form(vm: CheckoutViewModel)

  /** The POST outcome: a redirect, NotFound, or the order that was stored. */
  datatype PostResult =
    | SignInRequired
    | BookingNotFound
    | Placed(order: OrderDao.Order)

  /** The exceptions the POST action as written can raise. */
  datatype Fault = NullReference | DivideByZero

  /** The POST action as written: it either throws or returns. */
  datatype AsWritten = Throws(fault: Fault) | Returns(result: PostResult)

  /** The tour row the LEFT JOIN pairs with a booking, if any. */
  function JoinedTour(tours: seq<TourRow>, tourId: int): Option<TourRow> {
    FindKey(tours, TourId, tourId)
  }

  /** The `tour_price` column of the join: null when there is no tour or no price. */
  function JoinedPrice(tours: seq<TourRow>, tourId: int): (r: Option<int>)
    ensures r.Some? ==> HasKey(tours, TourId, tourId)
    ensures r.Some? ==> JoinedTour(tours, tourId).value.price == r
  {
    match JoinedTour(tours, tourId)
    case None => None
    case Some(t) => t.price
  }

  /** `getColumnValueSafe` on a joined text column: "" when there is no tour or the column is null. */
  function JoinedText(tour: Option<TourRow>, column: TourRow -> Option<string>): (r: string)
    ensures tour.None? ==> r == ""
    ensures tour.Some? && column(tour.value).Some? ==> r == column(tour.value).value
  {
    if tour.None? then "" else column(tour.value).GetOr("")
  }

  function TourName(t: TourRow): Option<string> { t.name }
  function TourDestination(t: TourRow): Option<string> { t.destination }
  function TourImage(t: TourRow): Option<string> { t.imageUrl }

  /**
   * The booking may be paid for by `userId`: it exists, it is theirs, no PAID order
   * refers to it, and its status reads exactly CONFIRMED once mapped.
   */
  predicate Payable(bookings: seq<BookingRow>, orders: seq<OrderDao.OrderRow>, userId: int, bookingId: int) {
    var found := FindKey(bookings, RowId, bookingId);
    && found.Some? && found.value.userId == userId
    && !OrderDao.HasPaid(orders, bookingId)
    && MappedStatus(found.value) == Confirmed
  }

  /** The form prefilled from the mapped booking, its joined tour and the session. */
  function Prefill(b: BookingRow, tours: seq<TourRow>, session: Session): (vm: CheckoutViewModel)
    ensures vm.bookingId == b.id && vm.tourId == b.tourId
    ensures vm.quantity == b.numParticipants.GetOr(0) && vm.total == b.totalPrice.GetOr(0)
    ensures vm.price == JoinedPrice(tours, b.tourId).GetOr(0)
    ensures vm.fullName == session.fullName && vm.email == session.email && vm.phone == session.phone
    ensures vm.note == Some(Trim(b.notes.GetOr("")))
    ensures vm.paymentMethod.None? && vm.paymentProvider.None?
  {
    var tour := JoinedTour(tours, b.tourId);
    CheckoutViewModel(b.id, b.tourId, JoinedText(tour, TourName), JoinedText(tour, TourDestination),
      JoinedText(tour, TourImage), JoinedPrice(tours, b.tourId).GetOr(0),
      b.numParticipants.GetOr(0), b.totalPrice.GetOr(0), session.fullName, session.email,
      session.phone, Some(Trim(b.notes.GetOr(""))), None, None)
  }

  /**
   * GET `Index(bookingId)`: sign in first; NotFound unless the booking exists and is
   * the user's; a paid booking goes back to the booking list, and so does one that
   * is not CONFIRMED; otherwise the prefilled form.
   */
  function CheckoutPage(bookings: seq<BookingRow>, orders: seq<OrderDao.OrderRow>, tours: seq<TourRow>,
                        session: Session, bookingId: int): (r: Page)
    ensures session.userId.None? <==> r == LoginRedirect
    ensures r.Form? <==> session.userId.Some? && Payable(bookings, orders, session.userId.value, bookingId)
    ensures r == NotFoundPage <==> (session.userId.Some? &&
      (!HasKey(bookings, RowId, bookingId) || FindKey(bookings, RowId, bookingId).value.userId != session.userId.value))
    ensures r == PaidRedirect ==> OrderDao.HasPaid(orders, bookingId)
    ensures r.Form? ==> r.vm.bookingId == bookingId
  {
    if session.userId.None? then LoginRedirect
    else
      var found := FindKey(bookings, RowId, bookingId);
      if found.None? || found.value.userId != session.userId.value then NotFoundPage
      else if OrderDao.HasPaid(orders, bookingId) then PaidRedirect
      else if MappedStatus(found.value) != Confirmed then UnconfirmedRedirect
      else Form(Prefill(found.value, tours, session))
  }

  /** GET `Index(bookingId)` over the stores. */
  method IndexGet(bookings: BookingStore, orders: OrderDao.OrderStore, tours: TourStore,
                  session: Session, bookingId: int) returns (page: Page)
    requires bookings.Valid()
    ensures page == CheckoutPage(bookings.rows, orders.rows, tours.rows, session, bookingId)
  {
    if session.userId.None? {
      return LoginRedirect;
    }
    var found := bookings.FindById(bookingId);
    if found.Some? {
      FindKeyAgrees(bookings.rows, bookingId, found.value);
    }
    if found.None? || found.value.userId != session.userId.value {
      return NotFoundPage;
    }
    var paid := orders.HasPaidOrder(bookingId);
    if paid {
      return PaidRedirect;
    }
    var booking := MapRow(found.value, JoinedPrice(tours.rows, found.value.tourId));
    if booking.status != Confirmed {
      return UnconfirmedRedirect;
    }
    var tour := JoinedTour(tours.rows, booking.tourId);
    page := Form(CheckoutViewModel(booking.bookingId, booking.tourId, JoinedText(tour, TourName),
      JoinedText(tour, TourDestination), JoinedText(tour, TourImage), booking.tourPrice,
      booking.numParticipants, booking.totalPrice, session.fullName, session.email, session.phone,
      booking.notes, None, None));
  }

  /**
   * The order the POST builds: at least one traveller, the submitted quantity times
   * the booking's tour price as total, "" for a missing note or provider, "COD" for a
   * missing payment method, and status PAID.
   */
  function PaidOrder(userId: int, model: CheckoutViewModel, tourPrice: int): (o: OrderDao.Order)
    ensures o.userId == userId && o.bookingId == model.bookingId && o.tourId == model.tourId
    ensures o.quantity >= 1 && (model.quantity >= 1 ==> o.quantity == model.quantity)
    ensures o.totalPrice == model.quantity * tourPrice
    ensures o.note == Some(model.note.GetOr(""))
    ensures o.paymentMethod == Some(model.paymentMethod.GetOr("COD"))
    ensures o.paymentProvider == Some(model.paymentProvider.GetOr(""))
    ensures o.status == Some(OrderDao.Paid)
  {
    OrderDao.Order(userId, model.bookingId, model.tourId, if 1 > model.quantity then 1 else model.quantity,
      model.quantity * tourPrice, Some(model.note.GetOr("")), Some(model.paymentMethod.GetOr("COD")),
      Some(model.paymentProvider.GetOr("")), Some(OrderDao.Paid))
  }

  /**
   * The stored total agrees with the stored quantity only when the submitted quantity
   * was already at least one (or the tour is free): a quantity of 0 or less is stored
   * as one traveller with a total of that quantity times the price.
   */
  lemma PaidOrderTotalMatchesQuantity(userId: int, model: CheckoutViewModel, tourPrice: int)
    ensures var o := PaidOrder(userId, model, tourPrice);
      o.totalPrice == o.quantity * tourPrice <==> model.quantity >= 1 || tourPrice == 0
  {
    var o := PaidOrder(userId, model, tourPrice);
    if model.quantity < 1 {
      assert o.quantity == 1;
      assert o.totalPrice - o.quantity * tourPrice == (model.quantity - 1) * tourPrice;
      if tourPrice != 0 {
        if tourPrice > 0 {
          NegTimesPos(model.quantity - 1, tourPrice);
        } else {
          NegTimesPos(model.quantity - 1, -tourPrice);
          assert (model.quantity - 1) * -tourPrice == -((model.quantity - 1) * tourPrice);
        }
      }
    }
  }

  /** A product of a negative number and a positive one is at most minus the positive one. */
  lemma {:induction false} NegTimesPos(a: int, p: int)
    requires a <= -1 && p > 0
    ensures a * p <= -p
    decreases -a
  {
    if a < -1 {
      NegTimesPos(a + 1, p);
      assert a * p == (a + 1) * p - p;
    }
  }

  /**
   * POST `Index(model)` with the booking checked before it is used: sign in first;
   * NotFound unless the booking exists and is the user's; otherwise a PAID order for
   * it.  Neither an earlier payment nor the booking's status is checked again.
   */
  function Pay(bookings: seq<BookingRow>, tours: seq<TourRow>, userId: Option<int>,
               model: CheckoutViewModel): (r: PostResult)
    ensures userId.None? <==> r == SignInRequired
    ensures r.Placed? <==> (userId.Some? && HasKey(bookings, RowId, model.bookingId) &&
      FindKey(bookings, RowId, model.bookingId).value.userId == userId.value)
    ensures r.Placed? ==> r.order.userId == userId.value && r.order.bookingId == model.bookingId
    ensures r.Placed? ==> r.order.status == Some(OrderDao.Paid)
  {
    if userId.None? then SignInRequired
    else
      var found := FindKey(bookings, RowId, model.bookingId);
      if found.None? || found.value.userId != userId.value then BookingNotFound
      else Placed(PaidOrder(userId.value, model, JoinedPrice(tours, found.value.tourId).GetOr(0)))
  }

  /**
   * POST `Index(model)` as written: the unit price `totalPrice / numParticipants` is
   * computed before the booking is checked for null, so a missing booking throws a
   * null reference, and a booking with no (or a null) participant count throws a
   * division by zero, whoever owns it.
   */
  function PayAsWritten(bookings: seq<BookingRow>, tours: seq<TourRow>, userId: Option<int>,
                        model: CheckoutViewModel): (r: AsWritten)
    ensures r.Throws? <==> (userId.Some? &&
      (!HasKey(bookings, RowId, model.bookingId) ||
       FindKey(bookings, RowId, model.bookingId).value.numParticipants.GetOr(0) == 0))
  {
    if userId.None? then Returns(SignInRequired)
    else
      var found := FindKey(bookings, RowId, model.bookingId);
      if found.None? then Throws(NullReference)
      else if found.value.numParticipants.GetOr(0) == 0 then Throws(DivideByZero)
      else if found.value.userId != userId.value then Returns(BookingNotFound)
      else Returns(Placed(PaidOrder(userId.value, model, JoinedPrice(tours, found.value.tourId).GetOr(0))))
  }

  /** Whenever the action as written returns, it returns what `Pay` does. */
  lemma AsWrittenAgreesWhenItReturns(bookings: seq<BookingRow>, tours: seq<TourRow>, userId: Option<int>,
                                     model: CheckoutViewModel)
    ensures PayAsWritten(bookings, tours, userId, model).Returns? ==>
      PayAsWritten(bookings, tours, userId, model).result == Pay(bookings, tours, userId, model)
  {
  }

  /** A missing booking: the action as written throws where NotFound was meant. */
  lemma MissingBookingThrows(model: CheckoutViewModel)
    ensures PayAsWritten([], [], Some(1), model) == Throws(NullReference)
    ensures Pay([], [], Some(1), model) == BookingNotFound
  {
  }

  /**
   * A stored booking of user 2 without a participant count: user 1 gets a division
   * by zero where NotFound was meant, and user 2 gets one where an order was meant.
   */
  lemma ZeroParticipantsThrows(model: CheckoutViewModel)
    requires model.bookingId == 7
    ensures var b := BookingRow(7, 2, 3, None, Some(Confirmed), None, Some(100), None);
      && PayAsWritten([b], [], Some(1), model) == Throws(DivideByZero)
      && Pay([b], [], Some(1), model) == BookingNotFound
      && PayAsWritten([b], [], Some(2), model) == Throws(DivideByZero)
      && Pay([b], [], Some(2), model).Placed?
  {
    var b := BookingRow(7, 2, 3, None, Some(Confirmed), None, Some(100), None);
    assert FindKey([b], RowId, 7) == Some(b);
  }

  /** POST `Index(model)` over the stores: a placed order is inserted and nothing else changes. */
  method IndexPost(bookings: BookingStore, orders: OrderDao.OrderStore, tours: TourStore,
                   session: Session, model: CheckoutViewModel, now: int) returns (result: PostResult)
    requires bookings.Valid() && orders.Valid()
    modifies orders
    ensures orders.Valid()
    ensures result == Pay(bookings.rows, tours.rows, session.userId, model)
    ensures result.Placed? ==> orders.rows == old(orders.rows) + [OrderDao.Stored(result.order, old(orders.nextId), now)]
    ensures result.Placed? ==> OrderDao.HasPaid(orders.rows, model.bookingId)
    ensures !result.Placed? ==> orders.rows == old(orders.rows) && orders.nextId == old(orders.nextId)
  {
    if session.userId.None? {
      return SignInRequired;
    }
    var found := bookings.FindById(model.bookingId);
    if found.Some? {
      FindKeyAgrees(bookings.rows, model.bookingId, found.value);
    }
    if found.None? || found.value.userId != session.userId.value {
      return BookingNotFound;
    }
    var booking := MapRow(found.value, JoinedPrice(tours.rows, found.value.tourId));
    var order := PaidOrder(session.userId.value, model, booking.tourPrice);
    var ok := orders.Insert(order, now);
    OrderDao.HasPaidAfterInsert(old(orders.rows), OrderDao.Stored(order, old(orders.nextId), now), model.bookingId);
    result := Placed(order);
  }

  /**
   * After a payment the form is refused (the booking is paid), yet the POST accepts
   * a second payment for the same booking: it checks neither payment nor status.
   */
  lemma SecondPaymentAccepted(bookings: seq<BookingRow>, orders: seq<OrderDao.OrderRow>, tours: seq<TourRow>,
                              session: Session, model: CheckoutViewModel, id: int, now: int)
    requires Pay(bookings, tours, session.userId, model).Placed?
    ensures var after := orders + [OrderDao.Stored(Pay(bookings, tours, session.userId, model).order, id, now)];
      && CheckoutPage(bookings, after, tours, session, model.bookingId) == PaidRedirect
      && Pay(bookings, tours, session.userId, model).Placed?
  {
    var o := Pay(bookings, tours, session.userId, model).order;
    OrderDao.HasPaidAfterInsert(orders, OrderDao.Stored(o, id, now), model.bookingId);
  }

  /** The form is only offered for a CONFIRMED booking, but the POST pays for one in any status. */
  lemma UnconfirmedPaymentAccepted(bookings: seq<BookingRow>, orders: seq<OrderDao.OrderRow>, tours: seq<TourRow>,
                                   session: Session, model: CheckoutViewModel)
    requires session.userId.Some? && HasKey(bookings, RowId, model.bookingId)
    requires FindKey(bookings, RowId, model.bookingId).value.userId == session.userId.value
    requires MappedStatus(FindKey(bookings, RowId, model.bookingId).value) != Confirmed
    ensures !CheckoutPage(bookings, orders, tours, session, model.bookingId).Form?
    ensures Pay(bookings, tours, session.userId, model).Placed?
  {
  }
}
