/**
 * Controllers/FavoritesController.cs, `Toggle`: for the signed-in user, remove the
 * tour from the favourites if it is one and add it otherwise, answering with the new
 * membership.  The session's user id is a parameter.
 */
module FavoritesController {
  import opened Wrappers
  import opened FavoritesDao

  /** The JSON answer of `Toggle`. */
  datatype ToggleResult =
    | NotSignedIn
    | Toggled(success: bool, isFavorite: bool)

  /** The favourites table after a toggle of (userId, tourId). */
  function ToggledRows(rows: seq<FavRow>, userId: int, tourId: int, id: int, now: int): seq<FavRow> {
    if Favored(rows, userId, tourId) then Removed(rows, userId, tourId)
    else Added(rows, userId, tourId, id, now)
  }

  /** `Toggle`. */
  method Toggle(store: FavoritesStore, userId: Option<int>, tourId: int, now: int)
    returns (r: ToggleResult)
    requires store.Valid()
    modifies store
    ensures store.Valid()
    ensures userId.None? ==> r == NotSignedIn && store.rows == old(store.rows)
    ensures userId.Some? ==>
      && r == Toggled(true, !Favored(old(store.rows), userId.value, tourId))
      && store.rows == ToggledRows(old(store.rows), userId.value, tourId, old(store.nextId), now)
  {
    if userId.None? {
      return NotSignedIn;
    }
    var isFav := store.IsFavorite(userId.value, tourId);
    var success;
    if isFav {
      success := store.RemoveFavorite(userId.value, tourId);
    } else {
      success := store.AddFavorite(userId.value, tourId, now);
    }
    r := Toggled(success, !isFav);
  }

  /** The reported membership is the membership after the toggle. */
  lemma ToggleReportsMembership(rows: seq<FavRow>, userId: int, tourId: int, id: int, now: int)
    ensures Favored(ToggledRows(rows, userId, tourId, id, now), userId, tourId)
      == !Favored(rows, userId, tourId)
  {
    if Favored(rows, userId, tourId) {
      RemovedNotFavored(rows, userId, tourId);
    } else {
      AddedFavored(rows, userId, tourId, id, now);
    }
  }

  /** Two toggles of the same pair restore its membership (other pairs: `ToggleOthers`, applied twice). */
  lemma ToggleTwice(rows: seq<FavRow>, userId: int, tourId: int, id: int, now: int, id2: int, now2: int)
    ensures var twice := ToggledRows(ToggledRows(rows, userId, tourId, id, now), userId, tourId, id2, now2);
      Favored(twice, userId, tourId) == Favored(rows, userId, tourId)
  {
    ToggleReportsMembership(rows, userId, tourId, id, now);
    ToggleReportsMembership(ToggledRows(rows, userId, tourId, id, now), userId, tourId, id2, now2);
  }

  /** A toggle changes the membership of no other pair. */
  lemma ToggleOthers(rows: seq<FavRow>, userId: int, tourId: int, id: int, now: int, u: int, t: int)
    requires u != userId || t != tourId
    ensures Favored(ToggledRows(rows, userId, tourId, id, now), u, t) == Favored(rows, u, t)
  {
    OtherPairsUnchanged(rows, userId, tourId, id, now, u, t);
  }
}
