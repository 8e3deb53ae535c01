/**
 * DAOs/FavoritesDAO.cs over an in-memory `[user_favorites]` table of (user, tour)
 * pairs.  `addFavorite` checks membership first, so a pair is stored at most once
 * through it; `removeFavorite` deletes every row of the pair.
 */
module FavoritesDao {
  import opened Wrappers
  import opened Tables

  datatype FavRow = FavRow(id: int, userId: int, tourId: int, createdAt: int)

  function FavId(r: FavRow): int { r.id }

  /** `WHERE user_id = ?` */
  function OfUser(userId: int): FavRow -> bool {
    (r: FavRow) => r.userId == userId
  }

  /** `WHERE user_id = ? AND tour_id = ?` */
  function IsPair(userId: int, tourId: int): FavRow -> bool {
    (r: FavRow) => r.userId == userId && r.tourId == tourId
  }

  /** The tour is among the user's favourites. */
  predicate Favored(rows: seq<FavRow>, userId: int, tourId: int) {
    exists i :: 0 <= i < |rows| && rows[i].userId == userId && rows[i].tourId == tourId
  }

  /** The table after `addFavorite(userId, tourId)`, the new row getting key `id`. */
  function Added(rows: seq<FavRow>, userId: int, tourId: int, id: int, now: int): seq<FavRow> {
    if Favored(rows, userId, tourId) then rows else rows + [FavRow(id, userId, tourId, now)]
  }

  /** The table after `removeFavorite(userId, tourId)`. */
  function Removed(rows: seq<FavRow>, userId: int, tourId: int): seq<FavRow> {
    Filter(rows, (r: FavRow) => !(r.userId == userId && r.tourId == tourId))
  }

  /** The `[user_favorites]` table. */
  class FavoritesStore {
    var rows: seq<FavRow>
    var nextId: int

    ghost predicate Valid()
      reads this
    {
      WellKeyed(rows, FavId, nextId)
    }

    constructor ()
      ensures Valid() && rows == []
    {
      rows := [];
      nextId := 1;
    }

    /** `isFavorite`: `COUNT(*)` of the pair's rows is positive. */
    method IsFavorite(userId: int, tourId: int) returns (b: bool)
      ensures b <==> Favored(rows, userId, tourId)
    {
      FilterNonEmpty(rows, IsPair(userId, tourId));
      b := |Filter(rows, IsPair(userId, tourId))| > 0;
    }

    /** `addFavorite`: true without inserting when the pair exists, else one new row. */
    method AddFavorite(userId: int, tourId: int, now: int) returns (ok: bool)
      requires Valid()
      modifies this
      ensures Valid() && ok
      ensures rows == Added(old(rows), userId, tourId, old(nextId), now)
      ensures Favored(old(rows), userId, tourId) ==> nextId == old(nextId)
    {
      var present := IsFavorite(userId, tourId);
      if present {
        return true;
      }
      var row := FavRow(nextId, userId, tourId, now);
      AppendWellKeyed(rows, FavId, nextId, row);
      rows := rows + [row];
      nextId := nextId + 1;
      ok := true;
    }

    /** `removeFavorite`: deletes the pair's rows; true iff there were any. */
    method RemoveFavorite(userId: int, tourId: int) returns (ok: bool)
      requires Valid()
      modifies this`rows
      ensures Valid()
      ensures ok == Favored(old(rows), userId, tourId)
      ensures rows == Removed(old(rows), userId, tourId)
    {
      ok := IsFavorite(userId, tourId);
      FilterIncreasing(rows, (r: FavRow) => !(r.userId == userId && r.tourId == tourId), FavId);
      rows := Removed(rows, userId, tourId);
    }

    /** `countByUserId`. */
    method CountByUserId(userId: int) returns (n: int)
      ensures n == |Filter(rows, OfUser(userId))|
    {
      n := |Filter(rows, OfUser(userId))|;
    }

    /** `getFavoritesByUserId`: the user's rows, highest favourite id first. */
    method GetFavoritesByUserId(userId: int) returns (result: seq<FavRow>)
      ensures result == SelectDesc(rows, OfUser(userId))
    {
      result := ReadDesc(rows, OfUser(userId));
    }
  }

  /** After `addFavorite` the pair is a favourite. */
  lemma AddedFavored(rows: seq<FavRow>, userId: int, tourId: int, id: int, now: int)
    ensures Favored(Added(rows, userId, tourId, id, now), userId, tourId)
  {
    if !Favored(rows, userId, tourId) {
      assert Added(rows, userId, tourId, id, now)[|rows|] == FavRow(id, userId, tourId, now);
    }
  }

  /** Adding the same pair twice is adding it once. */
  lemma AddedIdempotent(rows: seq<FavRow>, userId: int, tourId: int, id: int, now: int, id2: int, now2: int)
    ensures Added(Added(rows, userId, tourId, id, now), userId, tourId, id2, now2)
      == Added(rows, userId, tourId, id, now)
  {
    AddedFavored(rows, userId, tourId, id, now);
  }

  /** The user's count grows by one exactly when the pair was new; other users' counts stay. */
  lemma AddedCount(rows: seq<FavRow>, userId: int, tourId: int, id: int, now: int, other: int)
    ensures |Filter(Added(rows, userId, tourId, id, now), OfUser(other))|
      == |Filter(rows, OfUser(other))|
        + (if other == userId && !Favored(rows, userId, tourId) then 1 else 0)
  {
    if !Favored(rows, userId, tourId) {
      FilterAppend(rows, [FavRow(id, userId, tourId, now)], OfUser(other));
    }
  }

  /** After `removeFavorite` the pair is no longer a favourite. */
  lemma RemovedNotFavored(rows: seq<FavRow>, userId: int, tourId: int)
    ensures !Favored(Removed(rows, userId, tourId), userId, tourId)
  {
  }

  /** Adding or removing one pair leaves every other pair's membership as it was. */
  lemma OtherPairsUnchanged(rows: seq<FavRow>, userId: int, tourId: int, id: int, now: int, u: int, t: int)
    requires u != userId || t != tourId
    ensures Favored(Added(rows, userId, tourId, id, now), u, t) <==> Favored(rows, u, t)
    ensures Favored(Removed(rows, userId, tourId), u, t) <==> Favored(rows, u, t)
  {
    var added := Added(rows, userId, tourId, id, now);
    if Favored(added, u, t) {
      var i :| 0 <= i < |added| && added[i].userId == u && added[i].tourId == t;
      assert i < |rows| && rows[i] == added[i];
    }
    if Favored(rows, u, t) {
      var i :| 0 <= i < |rows| && rows[i].userId == u && rows[i].tourId == t;
      assert added[i] == rows[i];
      assert rows[i] in Removed(rows, userId, tourId);
    }
    var removed := Removed(rows, userId, tourId);
    if Favored(removed, u, t) {
      var i :| 0 <= i < |removed| && removed[i].userId == u && removed[i].tourId == t;
      var j :| 0 <= j < |rows| && rows[j] == removed[i];
    }
  }
}
