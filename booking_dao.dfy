/**
 * DAOs/BookingDAO.cs over an in-memory `bookings` table.  Rows keep the nullable
 * columns as `Option`; `MapRow` applies the defaults of `mapResultSetToBooking`.
 * Statuses are compared exactly, as the SQL text does (see README).
 */
module BookingDao {
  import opened Wrappers
  import opened Text
  import opened Tables
  import opened BookingModel

  datatype BookingRow = BookingRow(
    id: int,
    userId: int,
    tourId: int,
    bookingDate: Option<int>,
    status: Option<string>,
    numParticipants: Option<int>,
    totalPrice: Option<int>,
    notes: Option<string>)

  function RowId(r: BookingRow): int { r.id }

  /** `WHERE user_id = ?` */
  function OfUser(userId: int): BookingRow -> bool {
    (r: BookingRow) => r.userId == userId
  }

  /** `WHERE status = ?` */
  function WithStatusValue(status: string): BookingRow -> bool {
    (r: BookingRow) => r.status == Some(status)
  }

  function AnyRow(): BookingRow -> bool {
    (r: BookingRow) => true
  }

  /** `UPDATE … SET status = ? WHERE id = ?` */
  function SetStatusWhere(rows: seq<BookingRow>, id: int, status: string): (r: seq<BookingRow>)
    ensures |r| == |rows|
    ensures forall i :: 0 <= i < |rows| && rows[i].id != id ==> r[i] == rows[i]
    ensures forall i :: 0 <= i < |rows| && rows[i].id == id ==>
      r[i].status == Some(status) && r[i].(status := rows[i].status) == rows[i]
  {
    seq(|rows|, i requires 0 <= i < |rows| =>
      if rows[i].id == id then rows[i].(status := Some(status)) else rows[i])
  }

  /** A status that counts towards revenue. */
  predicate Earning(r: BookingRow) {
    r.status == Some(Confirmed) || r.status == Some(Completed)
  }

  /** What a row adds to `SUM(total_price)` (a null total adds nothing). */
  function Earned(r: BookingRow): int {
    if Earning(r) then r.totalPrice.GetOr(0) else 0
  }

  /** `SELECT SUM(total_price) … WHERE status IN ('CONFIRMED', 'COMPLETED')`, 0 for no rows. */
  function Revenue(rows: seq<BookingRow>): int {
    if rows == [] then 0 else Earned(rows[0]) + Revenue(rows[1..])
  }

  lemma {:induction false} RevenueAppend(a: seq<BookingRow>, b: seq<BookingRow>)
    ensures Revenue(a + b) == Revenue(a) + Revenue(b)
  {
    if a == [] {
      assert a + b == b;
    } else {
      assert (a + b)[1..] == a[1..] + b;
      RevenueAppend(a[1..], b);
    }
  }

  /** Rows that are neither CONFIRMED nor COMPLETED contribute nothing. */
  lemma {:induction false} RevenueOnlyEarning(rows: seq<BookingRow>)
    requires forall i :: 0 <= i < |rows| ==> !Earning(rows[i])
    ensures Revenue(rows) == 0
  {
    if rows != [] {
      RevenueOnlyEarning(rows[1..]);
    }
  }

  /** With non-negative totals, revenue is non-negative and bounds each earning row's total. */
  lemma {:induction false} RevenueBounds(rows: seq<BookingRow>, k: int)
    requires forall i :: 0 <= i < |rows| ==> rows[i].totalPrice.GetOr(0) >= 0
    requires 0 <= k < |rows| && Earning(rows[k])
    ensures Revenue(rows) >= rows[k].totalPrice.GetOr(0) >= 0
  {
    RevenueNonNegative(rows[1..]);
    if k > 0 {
      RevenueBounds(rows[1..], k - 1);
    }
  }

  lemma {:induction false} RevenueNonNegative(rows: seq<BookingRow>)
    requires forall i :: 0 <= i < |rows| ==> rows[i].totalPrice.GetOr(0) >= 0
    ensures Revenue(rows) >= 0
  {
    if rows != [] {
      RevenueNonNegative(rows[1..]);
    }
  }

  lemma {:induction false} SetStatusWhereAbsent(rows: seq<BookingRow>, id: int, status: string)
    requires !HasKey(rows, RowId, id)
    ensures SetStatusWhere(rows, id, status) == rows
  {
  }

  /**
   * Changing the status of one row changes revenue by exactly that row's change of
   * contribution: confirming a PENDING booking adds its total, cancelling a CONFIRMED
   * one removes it.
   */
  lemma {:induction false} RevenueSetStatus(rows: seq<BookingRow>, id: int, status: string)
    requires Increasing(rows, RowId) && HasKey(rows, RowId, id)
    ensures var r := FindKey(rows, RowId, id).value;
      Revenue(SetStatusWhere(rows, id, status))
        == Revenue(rows) - Earned(r) + Earned(r.(status := Some(status)))
  {
    var r := FindKey(rows, RowId, id).value;
    var after := SetStatusWhere(rows, id, status);
    assert after[1..] == SetStatusWhere(rows[1..], id, status);
    if rows[0].id == id {
      assert !HasKey(rows[1..], RowId, id) by {
        forall k | 0 <= k < |rows[1..]| ensures rows[1..][k].id != id {
          assert RowId(rows[0]) < RowId(rows[k + 1]);
        }
      }
      SetStatusWhereAbsent(rows[1..], id, status);
    } else {
      var k :| 0 <= k < |rows| && rows[k].id == id;
      assert rows[1..][k - 1].id == id;
      RevenueSetStatus(rows[1..], id, status);
    }
  }

  /** The status a mapped `Booking` carries: null becomes PENDING, then trim and upper-case. */
  function MappedStatus(r: BookingRow): (s: string)
    ensures r.status.None? ==> s == Pending
    ensures r.status.Some? ==> s == NormalizeStatus(r.status)
  {
    if r.status.None? then Pending else NormalizeStatus(r.status)
  }

  /** A row whose stored status is already normal maps to that status unchanged. */
  lemma MappedStatusOfNormal(r: BookingRow, status: Option<string>)
    requires r.status == Some(NormalizeStatus(status))
    ensures MappedStatus(r) == NormalizeStatus(status)
  {
    NormalizeStatusIdempotent(status);
  }

  /** The mapping passes the column, or "PENDING" for null, through `setStatus`. */
  lemma MappedStatusThroughSetter(r: BookingRow)
    ensures MappedStatus(r) == NormalizeStatus(Some(r.status.GetOr(Pending)))
  {
    if r.status.None? {
      NormalizeStatusOfWord(Pending);
    }
  }

  /** `mapResultSetToBooking`: a fresh `Booking` with the column defaults applied. */
  method MapRow(r: BookingRow, tourPrice: Option<int>) returns (b: Booking)
    ensures fresh(b)
    ensures b.bookingId == r.id && b.userId == r.userId && b.tourId == r.tourId
    ensures b.bookingDate == r.bookingDate
    ensures b.status == MappedStatus(r)
    ensures b.numParticipants == r.numParticipants.GetOr(0)
    ensures b.totalPrice == r.totalPrice.GetOr(0)
    ensures b.notes == Some(Trim(r.notes.GetOr("")))
    ensures b.tourPrice == tourPrice.GetOr(0) && !b.isPaid
  {
    b := new Booking();
    b.bookingId, b.userId, b.tourId := r.id, r.userId, r.tourId;
    b.bookingDate := r.bookingDate;
    MapRowText(b, r);
    b.numParticipants := r.numParticipants.GetOr(0);
    b.totalPrice := r.totalPrice.GetOr(0);
    b.tourPrice, b.isPaid := tourPrice.GetOr(0), false;
  }

  /** The status and notes columns of `mapResultSetToBooking`, each through its setter. */
  method MapRowText(b: Booking, r: BookingRow)
    modifies b`status, b`notes
    ensures b.status == MappedStatus(r)
    ensures b.notes == Some(Trim(r.notes.GetOr("")))
  {
    b.SetStatus(Some(r.status.GetOr(Pending)));
    MappedStatusThroughSetter(r);
    b.SetNotes(Some(r.notes.GetOr("")));
  }

  /** `findById` reads the same row as the table lookup `FindKey` (ids are unique). */
  lemma FindKeyAgrees(rows: seq<BookingRow>, id: int, r: BookingRow)
    requires Increasing(rows, RowId) && r in rows && r.id == id
    ensures FindKey(rows, RowId, id) == Some(r)
  {
    var i :| 0 <= i < |rows| && rows[i] == r;
    FindKeyAt(rows, RowId, i);
  }

  /** The `bookings` table. */
  class BookingStore {
    var rows: seq<BookingRow>
    var nextId: int

    ghost predicate Valid()
      reads this
    {
      WellKeyed(rows, RowId, nextId)
    }

    constructor ()
      ensures Valid() && rows == []
    {
      rows := [];
      nextId := 1;
    }

    /**
     * `createBooking`: one new row with the booking's fields, stamped `now`, notes
     * defaulting to ""; returns the new id (`@@IDENTITY`).
     */
    method CreateBooking(booking: Booking, now: int) returns (id: int)
      requires Valid()
      modifies this
      ensures Valid()
      ensures id > 0 && id == old(nextId) && !HasKey(old(rows), RowId, id)
      ensures rows == old(rows) + [BookingRow(id, booking.userId, booking.tourId, Some(now),
        Some(booking.status), Some(booking.numParticipants), Some(booking.totalPrice),
        Some(booking.notes.GetOr("")))]
    {
      id := nextId;
      var row := BookingRow(id, booking.userId, booking.tourId, Some(now), Some(booking.status),
        Some(booking.numParticipants), Some(booking.totalPrice), Some(booking.notes.GetOr("")));
      rows := rows + [row];
      nextId := nextId + 1;
    }

    /** `updateStatus`: sets the upper-cased status on that row; true iff the row exists. */
    method UpdateStatus(id: int, status: string) returns (ok: bool)
      requires Valid()
      modifies this`rows
      ensures Valid()
      ensures ok == HasKey(old(rows), RowId, id)
      ensures rows == SetStatusWhere(old(rows), id, ToUpper(status))
    {
      ok := FindKey(rows, RowId, id).Some?;
      rows := SetStatusWhere(rows, id, ToUpper(status));
    }

    method ConfirmBooking(id: int) returns (ok: bool)
      requires Valid()
      modifies this`rows
      ensures Valid()
      ensures ok == HasKey(old(rows), RowId, id)
      ensures rows == SetStatusWhere(old(rows), id, Confirmed)
    {
      ToUpperOfUpperWord(Confirmed);
      ok := UpdateStatus(id, Confirmed);
    }

    method CancelBooking(id: int) returns (ok: bool)
      requires Valid()
      modifies this`rows
      ensures Valid()
      ensures ok == HasKey(old(rows), RowId, id)
      ensures rows == SetStatusWhere(old(rows), id, Cancelled)
    {
      ToUpperOfUpperWord(Cancelled);
      ok := UpdateStatus(id, Cancelled);
    }

    method CompleteBooking(id: int) returns (ok: bool)
      requires Valid()
      modifies this`rows
      ensures Valid()
      ensures ok == HasKey(old(rows), RowId, id)
      ensures rows == SetStatusWhere(old(rows), id, Completed)
    {
      ToUpperOfUpperWord(Completed);
      ok := UpdateStatus(id, Completed);
    }

    /** `delete`: removes that row; true iff it existed. */
    method Delete(id: int) returns (ok: bool)
      requires Valid()
      modifies this`rows
      ensures Valid()
      ensures ok == HasKey(old(rows), RowId, id)
      ensures rows == DeleteKey(old(rows), RowId, id)
    {
      ok := FindKey(rows, RowId, id).Some?;
      DeleteKeyIncreasing(rows, RowId, id);
      rows := DeleteKey(rows, RowId, id);
    }

    /** `deleteAllBookings`: empties the table and reports success. */
    method DeleteAllBookings() returns (ok: bool)
      requires Valid()
      modifies this`rows
      ensures Valid() && ok && rows == []
    {
      rows := [];
      ok := true;
    }

    /** `findById`. */
    method FindById(id: int) returns (r: Option<BookingRow>)
      ensures r.Some? <==> HasKey(rows, RowId, id)
      ensures r.Some? ==> r.value in rows && r.value.id == id
    {
      r := FindKey(rows, RowId, id);
    }

    /** `countByUserId`: `SELECT COUNT(*) … WHERE user_id = ?`. */
    method CountByUserId(userId: int) returns (n: int)
      ensures n == |Filter(rows, OfUser(userId))|
    {
      n := |Filter(rows, OfUser(userId))|;
    }

    /** `countByStatus`: exact comparison with the stored status. */
    method CountByStatus(status: string) returns (n: int)
      ensures n == |Filter(rows, WithStatusValue(status))|
    {
      n := |Filter(rows, WithStatusValue(status))|;
    }

    /** `getTotalRevenue`. */
    method GetTotalRevenue() returns (total: int)
      ensures total == Revenue(rows)
    {
      total := 0;
      var i := |rows|;
      while i > 0
        invariant 0 <= i <= |rows|
        invariant total == Revenue(rows[i..])
      {
        i := i - 1;
        assert rows[i..][1..] == rows[i + 1..];
        total := total + Earned(rows[i]);
      }
      assert rows[0..] == rows;
    }

    /** `getBookingsByUserId`: the user's rows, newest first. */
    method GetBookingsByUserId(userId: int) returns (result: seq<BookingRow>)
      ensures result == SelectDesc(rows, OfUser(userId))
    {
      result := ReadDesc(rows, OfUser(userId));
    }

    /** `getRecentBookings`: `TOP limit` rows by id descending, or every row for limit <= 0. */
    method GetRecentBookings(limit: int) returns (result: seq<BookingRow>)
      ensures result == if limit > 0 then Take(SelectDesc(rows, AnyRow()), limit) else SelectDesc(rows, AnyRow())
    {
      var all := ReadDesc(rows, AnyRow());
      result := if limit > 0 then Take(all, limit) else all;
    }
  }

  /** A user's bookings are exactly that user's rows, newest first; the count agrees. */
  lemma UserBookings(rows: seq<BookingRow>, userId: int)
    requires Increasing(rows, RowId)
    ensures forall i :: 0 <= i < |SelectDesc(rows, OfUser(userId))| ==>
      SelectDesc(rows, OfUser(userId))[i].userId == userId
    ensures forall r :: r in rows && r.userId == userId ==> r in SelectDesc(rows, OfUser(userId))
    ensures Decreasing(SelectDesc(rows, OfUser(userId)), RowId)
    ensures |SelectDesc(rows, OfUser(userId))| == |Filter(rows, OfUser(userId))|
  {
    SelectDescDecreasing(rows, OfUser(userId), RowId);
  }

  /** A new booking adds one to its user's count and to no one else's. */
  lemma CountAfterCreate(rows: seq<BookingRow>, row: BookingRow, userId: int)
    ensures |Filter(rows + [row], OfUser(userId))|
      == |Filter(rows, OfUser(userId))| + (if row.userId == userId then 1 else 0)
  {
    FilterAppend(rows, [row], OfUser(userId));
  }

  /** A new booking in any status other than CONFIRMED/COMPLETED leaves revenue unchanged. */
  lemma RevenueAfterCreate(rows: seq<BookingRow>, row: BookingRow)
    requires !Earning(row)
    ensures Revenue(rows + [row]) == Revenue(rows)
  {
    RevenueAppend(rows, [row]);
    assert [row][1..] == [];
  }

  lemma TakeReverseHas(rows: seq<BookingRow>, n: int, a: int)
    requires 0 <= a < |rows|
    ensures a >= |rows| - |Take(Reverse(rows), n)| ==> rows[a] in Take(Reverse(rows), n)
  {
    var result := Take(Reverse(rows), n);
    if a >= |rows| - |result| {
      assert result[|rows| - 1 - a] == rows[a];
    }
  }

  /** Taking the first rows of a table in reverse id order leaves out only older rows. */
  lemma {:induction false} TakeReverseNewest(rows: seq<BookingRow>, n: int, a: int, b: int)
    requires Increasing(rows, RowId)
    requires 0 <= a < |rows| && 0 <= b < |Take(Reverse(rows), n)|
    requires rows[a] !in Take(Reverse(rows), n)
    ensures rows[a].id < Take(Reverse(rows), n)[b].id
  {
    var result := Take(Reverse(rows), n);
    assert result[b] == rows[|rows| - 1 - b];
    TakeReverseHas(rows, n, a);
    assert RowId(rows[a]) < RowId(rows[|rows| - 1 - b]);
  }

  /**
   * `getRecentBookings(limit)` with limit > 0 returns at most `limit` rows, newest first,
   * and every row it leaves out is older than every row it returns.
   */
  lemma RecentAreNewest(rows: seq<BookingRow>, limit: int)
    requires Increasing(rows, RowId) && limit > 0
    ensures |Take(SelectDesc(rows, AnyRow()), limit)| <= limit
    ensures Decreasing(Take(SelectDesc(rows, AnyRow()), limit), RowId)
    ensures forall a, b ::
      (0 <= a < |rows| && 0 <= b < |Take(SelectDesc(rows, AnyRow()), limit)|
       && rows[a] !in Take(SelectDesc(rows, AnyRow()), limit))
      ==> rows[a].id < Take(SelectDesc(rows, AnyRow()), limit)[b].id
  {
    FilterAll(rows, AnyRow());
    assert SelectDesc(rows, AnyRow()) == Reverse(rows);
    TakeReverseOrder(rows, limit);
  }

  lemma TakeReverseOrder(rows: seq<BookingRow>, n: int)
    requires Increasing(rows, RowId)
    ensures Decreasing(Take(Reverse(rows), n), RowId)
    ensures forall a, b ::
      (0 <= a < |rows| && 0 <= b < |Take(Reverse(rows), n)| && rows[a] !in Take(Reverse(rows), n))
      ==> rows[a].id < Take(Reverse(rows), n)[b].id
  {
    ReverseIncreasing(rows, RowId);
    var r := Take(Reverse(rows), n);
    assert r == Reverse(rows)[..|r|];
    forall a, b | 0 <= a < |rows| && 0 <= b < |r| && rows[a] !in r
      ensures rows[a].id < r[b].id
    {
      TakeReverseNewest(rows, n, a, b);
    }
  }
}
