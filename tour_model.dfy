/**
 * Models/Tour.cs: a tour with its capacity, price and status.  The text setters trim;
 * `setStatus` trims but keeps the case, so `isActive` compares ignoring case.
 * Money (`decimal`) is an `int`, and a `DateTime` is an `int` instant.
 */
module TourModel {
  import opened Wrappers
  import opened Text

  /**
   * The picture shown for a tour without a usable image url.  It is one literal in
   * Models/Tour.cs; it is written here as "http" followed by the rest only so that the
   * verifier can see its first four characters (it does not index into a long literal).
   */
  const DefaultImageUrl: string :=
    "http" + "s://images.unsplash.com/photo-1502602898657-3e917247a183?q=80&w=2070&auto=format&fit=crop"

  class Tour {
    var tourId: int
    var name: Option<string>
    var description: Option<string>
    var destination: Option<string>
    var departureDate: Option<int>
    var duration: int
    var price: int
    var maxParticipants: int
    var currentParticipants: int
    var imageUrl: Option<string>
    var status: string

    /** `new Tour()`: every field at its default, and status "ACTIVE". */
    constructor ()
      ensures tourId == 0 && duration == 0 && price == 0
      ensures maxParticipants == 0 && currentParticipants == 0
      ensures name.None? && description.None? && destination.None?
      ensures departureDate.None? && imageUrl.None?
      ensures status == "ACTIVE"
    {
      tourId, duration, price, maxParticipants, currentParticipants := 0, 0, 0, 0, 0;
      name, description, destination, departureDate, imageUrl := None, None, None, None, None;
      status := "ACTIVE";
    }

    method SetName(name: Option<string>)
      modifies this`name
      ensures this.name == TrimOrNull(name)
    {
      this.name := TrimOrNull(name);
    }

    method SetDescription(description: Option<string>)
      modifies this`description
      ensures this.description == TrimOrNull(description)
    {
      this.description := TrimOrNull(description);
    }

    method SetDestination(destination: Option<string>)
      modifies this`destination
      ensures this.destination == TrimOrNull(destination)
    {
      this.destination := TrimOrNull(destination);
    }

    method SetImageUrl(imageUrl: Option<string>)
      modifies this`imageUrl
      ensures this.imageUrl == TrimOrNull(imageUrl)
    {
      this.imageUrl := TrimOrNull(imageUrl);
    }

    /** `setStatus`: the trimmed value with its case kept, or "ACTIVE" for null. */
    method SetStatus(status: Option<string>)
      modifies this`status
      ensures status.None? ==> this.status == "ACTIVE"
      ensures status.Some? ==> this.status == Trim(status.value)
    {
      this.status := if status.None? then "ACTIVE" else Trim(status.value);
    }

    /** `isActive`: the status spells ACTIVE in any mix of cases. */
    predicate IsActive()
      reads this
    {
      IsActiveStatus(status)
    }

    /** `getAvailableSlots`: max(0, maxParticipants - currentParticipants). */
    function AvailableSlots(): (r: int)
      reads this
      ensures r >= 0 && r >= maxParticipants - currentParticipants
      ensures r == 0 || r == maxParticipants - currentParticipants
      ensures currentParticipants >= 0 && maxParticipants >= 0 ==> r <= maxParticipants
    {
      if maxParticipants - currentParticipants > 0 then maxParticipants - currentParticipants else 0
    }

    /** `getSafeImageUrl`. */
    function SafeImageUrl(): (r: string)
      reads this
      ensures IsNullOrEmpty(imageUrl) ==> r == DefaultImageUrl
      ensures r == DefaultImageUrl || HasUrlPrefix(r)
    {
      SafeImageUrlOf(imageUrl)
    }

    /** `Equals`: another tour with the same id (the same object in particular). */
    predicate Equals(o: Tour?)
      reads this, o
    {
      this == o || (o != null && tourId == o.tourId)
    }
  }

  predicate IsActiveStatus(status: string) {
    EqualsIgnoreCase("ACTIVE", status)
  }

  /** Exactly the 64 case variants of ACTIVE are active; in particular a padded one is not. */
  lemma IsActiveStatusSpellings(status: string)
    ensures IsActiveStatus(status) <==>
      |status| == 6 && forall i :: 0 <= i < 6 ==> status[i] == "ACTIVE"[i] || status[i] == "active"[i]
  {
    EqualsIgnoreCaseUpperWord(status, "ACTIVE");
    assert forall i :: 0 <= i < 6 ==> LowerChar("ACTIVE"[i]) == "active"[i];
  }

  /** A tour whose status was set through `setStatus` from "active" is active. */
  lemma SetStatusActiveIgnoresCase(s: string)
    requires Trim(s) == "active" || Trim(s) == "Active" || Trim(s) == "ACTIVE"
    ensures IsActiveStatus(Trim(s))
  {
    IsActiveStatusSpellings(Trim(s));
  }

  /** Equality of tours is equality of ids; it is symmetric. */
  lemma EqualsById(a: Tour, b: Tour)
    ensures a.Equals(b) <==> a.tourId == b.tourId
    ensures a.Equals(b) <==> b.Equals(a)
  {
  }

  predicate HasUrlPrefix(u: string) {
    StartsWith(u, "http") || StartsWith(u, "/") || StartsWith(u, "~/")
  }

  /**
   * `getSafeImageUrl` on a given url: a url that is already absolute or rooted is kept,
   * a relative one under "images/" is rooted with "/", anything else (and nothing)
   * is replaced by the default picture.
   */
  function SafeImageUrlOf(imageUrl: Option<string>): (r: string)
    ensures IsNullOrEmpty(imageUrl) ==> r == DefaultImageUrl
    ensures !IsNullOrEmpty(imageUrl) && HasUrlPrefix(imageUrl.value) ==> r == imageUrl.value
    ensures !IsNullOrEmpty(imageUrl) && !HasUrlPrefix(imageUrl.value) ==>
      r == (if Contains(ToLower(imageUrl.value), "images/") then "/" + imageUrl.value else DefaultImageUrl)
  {
    if IsNullOrEmpty(imageUrl) then DefaultImageUrl
    else
      var u := imageUrl.value;
      if HasUrlPrefix(u) || Contains(ToLower(u), "images/") then
        if !HasUrlPrefix(u) then "/" + u else u
      else DefaultImageUrl
  }

  /** Every result is the default picture or begins with "http", "/" or "~/". */
  lemma SafeImageUrlShape(imageUrl: Option<string>)
    ensures var r := SafeImageUrlOf(imageUrl);
      r == DefaultImageUrl || HasUrlPrefix(r)
  {
    var r := SafeImageUrlOf(imageUrl);
    if !IsNullOrEmpty(imageUrl) && !HasUrlPrefix(imageUrl.value) && r != DefaultImageUrl {
      assert StartsWith(r, "/");
    }
  }

  /** The safe url is a fixed point: applying the rule to its own result changes nothing. */
  lemma SafeImageUrlStable(imageUrl: Option<string>)
    ensures SafeImageUrlOf(Some(SafeImageUrlOf(imageUrl))) == SafeImageUrlOf(imageUrl)
  {
    SafeImageUrlShape(imageUrl);
    var r := SafeImageUrlOf(imageUrl);
    if r == DefaultImageUrl {
      DefaultImageUrlAbsolute();
    }
  }

  /** The default picture is an absolute url, so the rule keeps it as it is. */
  lemma DefaultImageUrlAbsolute()
    ensures HasUrlPrefix(DefaultImageUrl)
  {
    assert DefaultImageUrl[..4] == "http";
  }
}
