/**
 * The favorite controller: the status codes of `checkFavorite`,
 * `addFavorite` and `removeFavorite` over the model's results.
 */
module FavoriteController {
  import opened Common
  import opened Db
  import opened PropertyModel
  import opened FavoriteModel

  const FAVORITE_PROPERTY_NOT_FOUND := Response(404, "Property not found")
  const ALREADY_FAVORITE := Response(200, "Property already in favorites")
  const FAVORITE_ADDED := Response(201, "Property added to favorites")
  const NOT_IN_FAVORITES := Response(404, "Property not found in favorites")
  const FAVORITE_REMOVED := Response(200, "Property removed from favorites")

  /** The body of `checkFavorite`'s 200: `{ isFavorite }`. */
  datatype FavoriteCheck = FavoriteCheck(status: int, isFavorite: bool)

  /** `checkFavorite(req, res)`: the model's answer, unchanged. */
  function CheckFavorite(db: Database, user: Claims, propertyId: int): (r: FavoriteCheck)
    reads db
    ensures r.status == 200
    ensures r.isFavorite <==> exists f :: f in db.favorites && f.userId == user.id && f.propertyId == propertyId
  {
    FavoriteCheck(200, IsFavorite(db, user.id, propertyId))
  }

  /**
   * `addFavorite(req, res)`: 404 and no insert for a missing or inactive
   * property; 200 when the pair was already there; 201 for a new row.
   */
  method AddFavoriteHandler(db: Database, user: Claims, propertyId: int, now: int) returns (resp: Response)
    modifies db`favorites, db`nextId
    ensures old(PropertyById(db, propertyId)).None? ==> resp == FAVORITE_PROPERTY_NOT_FOUND && unchanged(db)
    ensures old(PropertyById(db, propertyId)).Some? ==>
      db.favorites == AfterAdd(old(db.favorites), user.id, propertyId, old(db.nextId), now) &&
      (resp == ALREADY_FAVORITE <==> old(IsFavorite(db, user.id, propertyId))) &&
      (resp != ALREADY_FAVORITE ==> resp == FAVORITE_ADDED) &&
      IsFavorite(db, user.id, propertyId)
  {
    var property := PropertyById(db, propertyId);
    if property.None? {
      return FAVORITE_PROPERTY_NOT_FOUND;
    }
    var result := AddFavorite(db, user.id, propertyId, now);
    if result == AlreadyExists {
      return ALREADY_FAVORITE;
    }
    resp := FAVORITE_ADDED;
  }

  /** `removeFavorite(req, res)`: 404 exactly when no row of the pair existed. */
  method RemoveFavoriteHandler(db: Database, user: Claims, propertyId: int) returns (resp: Response)
    modifies db`favorites
    ensures db.favorites == FavoritesWithout(old(db.favorites), user.id, propertyId)
    ensures resp == NOT_IN_FAVORITES <==> !old(IsFavorite(db, user.id, propertyId))
    ensures resp != NOT_IN_FAVORITES ==> resp == FAVORITE_REMOVED
  {
    var removed := RemoveFavorite(db, user.id, propertyId);
    if removed.None? {
      return NOT_IN_FAVORITES;
    }
    resp := FAVORITE_REMOVED;
  }
}
