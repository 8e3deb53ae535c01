/**
 * Models/Booking.cs: a booking of a tour by a user.  Unlike a tour's status, a
 * booking's status is upper-cased on the way in; the `is…` helpers still compare
 * ignoring case, while `getFormattedStatus` matches the exact upper-case words.
 */
module BookingModel {
  import opened Wrappers
  import opened Text

  const Pending: string := "PENDING"
  const Confirmed: string := "CONFIRMED"
  const Cancelled: string := "CANCELLED"
  const Completed: string := "COMPLETED"

  class Booking {
    var bookingId: int
    var userId: int
    var tourId: int
    var bookingDate: Option<int>
    var status: string
    var numParticipants: int
    var totalPrice: int
    var notes: Option<string>
    /** Display-only fields filled from joined tables. */
    var tourPrice: int
    var isPaid: bool

    /** `new Booking()`: defaults, and status "PENDING". */
    constructor ()
      ensures bookingId == 0 && userId == 0 && tourId == 0 && bookingDate.None?
      ensures status == Pending && numParticipants == 0 && totalPrice == 0 && notes.None?
      ensures tourPrice == 0 && !isPaid
    {
      bookingId, userId, tourId, numParticipants, totalPrice, tourPrice := 0, 0, 0, 0, 0, 0;
      bookingDate, notes := None, None;
      status := Pending;
      isPaid := false;
    }

    /** `setStatus`: trimmed and upper-cased, "PENDING" for null. */
    method SetStatus(status: Option<string>)
      modifies this`status
      ensures this.status == NormalizeStatus(status)
    {
      this.status := NormalizeStatus(status);
    }

    /** `setNotes`: trimmed, null kept. */
    method SetNotes(notes: Option<string>)
      modifies this`notes
      ensures this.notes == TrimOrNull(notes)
    {
      this.notes := TrimOrNull(notes);
    }

    predicate IsPending() reads this { EqualsIgnoreCase(Pending, status) }

    predicate IsConfirmed() reads this { EqualsIgnoreCase(Confirmed, status) }

    predicate IsCancelled() reads this { EqualsIgnoreCase(Cancelled, status) }

    predicate IsCompleted() reads this { EqualsIgnoreCase(Completed, status) }

    /** `getFormattedStatus`: the Vietnamese label of the current status. */
    function FormattedStatus(): (r: string)
      reads this
      ensures r == StatusLabel(status)
    {
      StatusLabel(status)
    }

    /** `Equals`: another booking with the same id. */
    predicate Equals(o: Booking?)
      reads this, o
    {
      this == o || (o != null && bookingId == o.bookingId)
    }
  }

  /** What `setStatus` stores for `status`. */
  function NormalizeStatus(status: Option<string>): (r: string)
    ensures status.Some? ==> |r| <= |status.value|
  {
    if status.None? then Pending else ToUpper(Trim(status.value))
  }

  /** A stored status has no surrounding white space and no lower-case letter. */
  lemma NormalizeStatusNormal(status: Option<string>)
    ensures var r := NormalizeStatus(status);
      Trim(r) == r && ToUpper(r) == r
  {
    if status.None? {
      TrimUpperWord(Pending);
      ToUpperOfUpperWord(Pending);
    } else {
      var t := Trim(status.value);
      TrimToUpper(t);
      TrimIdempotent(status.value);
      ToUpperIdempotent(t);
    }
  }

  /** `setStatus(getStatus())` changes nothing: a stored status is already normal. */
  lemma NormalizeStatusIdempotent(status: Option<string>)
    ensures NormalizeStatus(Some(NormalizeStatus(status))) == NormalizeStatus(status)
  {
    NormalizeStatusNormal(status);
  }

  /** A status word is stored as it is. */
  lemma NormalizeStatusOfWord(w: string)
    requires IsUpperWord(w)
    ensures NormalizeStatus(Some(w)) == w
  {
    TrimUpperWord(w);
    ToUpperOfUpperWord(w);
  }

  /** Any spelling of a status word, padded or not, is stored as the word itself. */
  lemma NormalizeStatusWord(s: string, w: string)
    requires IsUpperWord(w)
    requires EqualsIgnoreCase(Trim(s), w)
    ensures NormalizeStatus(Some(s)) == w
  {
    ToUpperOfUpperWord(w);
  }

  /** At most one of `isPending`, `isConfirmed`, `isCancelled` and `isCompleted` holds. */
  lemma AtMostOneStatus(b: Booking)
    ensures b.IsPending() ==> !b.IsConfirmed() && !b.IsCancelled() && !b.IsCompleted()
    ensures b.IsConfirmed() ==> !b.IsCancelled() && !b.IsCompleted()
    ensures b.IsCancelled() ==> !b.IsCompleted()
  {
    EqualsIgnoreCaseDistinct(b.status, Pending, Confirmed);
    EqualsIgnoreCaseDistinct(b.status, Pending, Cancelled);
    EqualsIgnoreCaseDistinct(b.status, Pending, Completed);
    EqualsIgnoreCaseDistinct(b.status, Confirmed, Cancelled);
    EqualsIgnoreCaseDistinct(b.status, Confirmed, Completed);
    EqualsIgnoreCaseDistinct(b.status, Cancelled, Completed);
  }

  /** The label `getFormattedStatus` shows for a status: the four words, others as they are. */
  function StatusLabel(status: string): (r: string)
    ensures status !in {Pending, Confirmed, Cancelled, Completed} ==> r == status
  {
    if status == Pending then "Chờ xác nhận"
    else if status == Confirmed then "Đã xác nhận"
    else if status == Cancelled then "Đã hủy"
    else if status == Completed then "Hoàn thành"
    else status
  }

  /** The four statuses get four different labels, none of which is itself a status word. */
  lemma StatusLabelsDistinct()
    ensures StatusLabel(Pending) != StatusLabel(Confirmed)
    ensures StatusLabel(Pending) != StatusLabel(Cancelled) && StatusLabel(Pending) != StatusLabel(Completed)
    ensures StatusLabel(Confirmed) != StatusLabel(Cancelled) && StatusLabel(Confirmed) != StatusLabel(Completed)
    ensures StatusLabel(Cancelled) != StatusLabel(Completed)
    ensures StatusLabel(Pending) !in [Pending, Confirmed, Cancelled, Completed]
    ensures StatusLabel(Confirmed) !in [Pending, Confirmed, Cancelled, Completed]
    ensures StatusLabel(Cancelled) !in [Pending, Confirmed, Cancelled, Completed]
    ensures StatusLabel(Completed) !in [Pending, Confirmed, Cancelled, Completed]
  {
    assert StatusLabel(Pending)[0] == 'C' && StatusLabel(Pending)[1] == 'h';
    assert StatusLabel(Completed)[0] == 'H';
    assert StatusLabel(Confirmed)[0] == 'Đ' && StatusLabel(Confirmed)[3] == 'x';
    assert StatusLabel(Cancelled)[0] == 'Đ' && StatusLabel(Cancelled)[3] == 'h';
    assert Pending[0] == 'P' && Confirmed[1] == 'O' && Cancelled[1] == 'A' && Completed[1] == 'O';
  }

  /** Equality of bookings is equality of ids. */
  lemma EqualsById(a: Booking, b: Booking)
    ensures a.Equals(b) <==> a.bookingId == b.bookingId
    ensures a.Equals(b) <==> b.Equals(a)
  {
  }
}
