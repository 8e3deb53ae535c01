/**
 * DAOs/OderDAO.cs over an in-memory `[Orders]` table: a paid order records that a
 * booking has been paid for, and `hasPaidOrder` is the existence query the checkout
 * page uses to refuse a second payment.
 */
module OrderDao {
  import opened Wrappers
  import opened Text
  import opened Tables

  const Paid: string := "PAID"

  /** Models/Order.cs as handed to `Insert`: the text fields may be null. */
  datatype Order = Order(
    userId: int,
    bookingId: int,
    tourId: int,
    quantity: int,
    totalPrice: int,
    note: Option<string>,
    paymentMethod: Option<string>,
    paymentProvider: Option<string>,
    status: Option<string>)

  /** A row of `[Orders]`: `Insert` never stores a null note, method or provider. */
  datatype OrderRow = OrderRow(
    id: int,
    userId: int,
    bookingId: int,
    tourId: int,
    quantity: int,
    totalPrice: int,
    note: string,
    paymentMethod: string,
    paymentProvider: string,
    status: Option<string>,
    createdAt: int)

  function OrderId(r: OrderRow): int { r.id }

  /** `WHERE booking_id = ? AND status = 'PAID'` */
  function PaidFor(bookingId: int): OrderRow -> bool {
    (r: OrderRow) => r.bookingId == bookingId && r.status == Some(Paid)
  }

  /** Some order for the booking has status exactly "PAID". */
  predicate HasPaid(rows: seq<OrderRow>, bookingId: int) {
    exists i :: 0 <= i < |rows| && rows[i].bookingId == bookingId && rows[i].status == Some(Paid)
  }

  /**
   * `UPDATE [Orders] SET [status] = ? WHERE [id] = ?`: only the status of that row changes.
   * It has the shape of `BookingDao.SetStatusWhere`, but the update `.(status := …)` is
   * on this table's own row type, so each table keeps its own copy.
   */
  function SetStatusWhere(rows: seq<OrderRow>, id: int, status: string): (r: seq<OrderRow>)
    ensures |r| == |rows|
    ensures forall i :: 0 <= i < |rows| && rows[i].id != id ==> r[i] == rows[i]
    ensures forall i :: 0 <= i < |rows| && rows[i].id == id ==>
      r[i].status == Some(status) && r[i].(status := rows[i].status) == rows[i]
  {
    seq(|rows|, i requires 0 <= i < |rows| =>
      if rows[i].id == id then rows[i].(status := Some(status)) else rows[i])
  }

  /** The row `Insert` writes for `order` under key `id`: null text becomes "". */
  function Stored(order: Order, id: int, now: int): (r: OrderRow)
    ensures r.id == id && r.createdAt == now
    ensures r.userId == order.userId && r.bookingId == order.bookingId && r.tourId == order.tourId
    ensures r.quantity == order.quantity && r.totalPrice == order.totalPrice && r.status == order.status
  {
    OrderRow(id, order.userId, order.bookingId, order.tourId, order.quantity, order.totalPrice,
      order.note.GetOr(""), order.paymentMethod.GetOr(""), order.paymentProvider.GetOr(""),
      order.status, now)
  }

  /** The `[Orders]` table. */
  class OrderStore {
    var rows: seq<OrderRow>
    var nextId: int

    ghost predicate Valid()
      reads this
    {
      WellKeyed(rows, OrderId, nextId)
    }

    constructor ()
      ensures Valid() && rows == []
    {
      rows := [];
      nextId := 1;
    }

    /** `Insert`: one new row, null text fields stored as "", stamped `now`; reports success. */
    method Insert(order: Order, now: int) returns (ok: bool)
      requires Valid()
      modifies this
      ensures Valid() && ok
      ensures !HasKey(old(rows), OrderId, old(nextId))
      ensures rows == old(rows) + [Stored(order, old(nextId), now)]
    {
      var row := Stored(order, nextId, now);
      AppendWellKeyed(rows, OrderId, nextId, row);
      rows := rows + [row];
      nextId := nextId + 1;
      ok := true;
    }

    /** `getById`: the order with that id, or null when there is none. */
    method GetById(id: int) returns (r: Option<OrderRow>)
      ensures r.None? <==> !HasKey(rows, OrderId, id)
      ensures r.Some? ==> r.value.id == id && r.value in rows
    {
      r := FindKey(rows, OrderId, id);
    }

    /**
     * `updateStatus`: stores the upper-cased status on that row and reports whether the
     * row existed; a null status throws inside the `try`, which answers false.
     */
    method UpdateStatus(id: int, status: Option<string>) returns (ok: bool)
      requires Valid()
      modifies this`rows
      ensures Valid()
      ensures status.None? ==> !ok && rows == old(rows)
      ensures status.Some? ==> ok == HasKey(old(rows), OrderId, id)
      ensures status.Some? ==> rows == SetStatusWhere(old(rows), id, ToUpper(status.value))
    {
      if status.None? {
        return false;
      }
      ok := FindKey(rows, OrderId, id).Some?;
      rows := SetStatusWhere(rows, id, ToUpper(status.value));
    }

    /** `hasPaidOrder`: `COUNT(*)` of the booking's PAID orders is positive. */
    method HasPaidOrder(bookingId: int) returns (paid: bool)
      ensures paid <==> HasPaid(rows, bookingId)
    {
      FilterNonEmpty(rows, PaidFor(bookingId));
      paid := |Filter(rows, PaidFor(bookingId))| > 0;
    }
  }

  /** Inserting never takes a payment away; inserting a PAID order records one. */
  lemma HasPaidAfterInsert(rows: seq<OrderRow>, row: OrderRow, bookingId: int)
    ensures HasPaid(rows + [row], bookingId) <==>
      HasPaid(rows, bookingId) || (row.bookingId == bookingId && row.status == Some(Paid))
  {
    var all := rows + [row];
    if HasPaid(all, bookingId) && !HasPaid(rows, bookingId) {
      var i :| 0 <= i < |all| && all[i].bookingId == bookingId && all[i].status == Some(Paid);
      assert i == |rows|;
    }
    if HasPaid(rows, bookingId) {
      var i :| 0 <= i < |rows| && rows[i].bookingId == bookingId && rows[i].status == Some(Paid);
      assert all[i] == rows[i];
    }
    if row.bookingId == bookingId && row.status == Some(Paid) {
      assert all[|rows|] == row;
    }
  }

  /** After setting an existing order's status to anything that upper-cases to PAID, its booking is paid. */
  lemma HasPaidAfterUpdate(rows: seq<OrderRow>, id: int, status: string)
    requires HasKey(rows, OrderId, id) && ToUpper(status) == Paid
    ensures HasPaid(SetStatusWhere(rows, id, ToUpper(status)), FindKey(rows, OrderId, id).value.bookingId)
  {
    var r := FindKey(rows, OrderId, id).value;
    var k :| 0 <= k < |rows| && rows[k] == r;
    var after := SetStatusWhere(rows, id, ToUpper(status));
    assert after[k].bookingId == r.bookingId && after[k].status == Some(Paid);
  }

  /** Setting a status other than PAID on an order cannot create a payment for any booking. */
  lemma HasPaidAfterOtherUpdate(rows: seq<OrderRow>, id: int, status: string, bookingId: int)
    requires status != Paid
    ensures HasPaid(SetStatusWhere(rows, id, status), bookingId) ==> HasPaid(rows, bookingId)
  {
    var after := SetStatusWhere(rows, id, status);
    if HasPaid(after, bookingId) {
      var i :| 0 <= i < |after| && after[i].bookingId == bookingId && after[i].status == Some(Paid);
      assert rows[i] == after[i];
    }
  }
}
