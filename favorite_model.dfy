/**
 * The favorite model: `isFavorite`, the check-then-insert `addFavorite`,
 * `removeFavorite` and `getUserFavorites`.
 */
module FavoriteModel {
  import opened Common
  import opened Db
  import opened PropertyListing

  predicate IsPair(f: FavoriteRow, userId: int, propertyId: int)
  {
    f.userId == userId && f.propertyId == propertyId
  }

  /** The first favorite row of the pair, as `result.rows[0]` of a query on it. */
  function FindPair(rows: seq<FavoriteRow>, userId: int, propertyId: int): (r: Option<FavoriteRow>)
    ensures r.Some? ==> r.value in rows && IsPair(r.value, userId, propertyId)
    ensures r.None? <==> forall f :: f in rows ==> !IsPair(f, userId, propertyId)
  {
    if rows == [] then None
    else if IsPair(rows[0], userId, propertyId) then Some(rows[0])
    else FindPair(rows[1..], userId, propertyId)
  }

  /** `isFavorite(userId, propertyId)` */
  function IsFavorite(db: Database, userId: int, propertyId: int): (r: bool)
    reads db
    ensures r <==> exists f :: f in db.favorites && IsPair(f, userId, propertyId)
  {
    FindPair(db.favorites, userId, propertyId).Some?
  }

  /** The favorites table after `addFavorite(userId, propertyId)` with the next id. */
  function AfterAdd(rows: seq<FavoriteRow>, userId: int, propertyId: int, id: int, now: int): seq<FavoriteRow>
  {
    if FindPair(rows, userId, propertyId).Some? then rows else rows + [FavoriteRow(id, userId, propertyId, now)]
  }

  /**
   * Adding is idempotent: a second add of the same pair, whatever id and
   * time it would use, leaves the table as the first one did.
   */
  lemma AddIdempotent(rows: seq<FavoriteRow>, userId: int, propertyId: int, id: int, now: int, id2: int, now2: int)
    ensures var once := AfterAdd(rows, userId, propertyId, id, now);
      AfterAdd(once, userId, propertyId, id2, now2) == once
    ensures exists f :: f in AfterAdd(rows, userId, propertyId, id, now) && IsPair(f, userId, propertyId)
  {
    var row := FavoriteRow(id, userId, propertyId, now);
    if FindPair(rows, userId, propertyId).None? {
      assert row in rows + [row];
    }
  }

  /** What `addFavorite` returns: `{already_exists: true}` or the inserted row. */
  datatype AddResult = AlreadyExists | Added(row: FavoriteRow)

  /** `addFavorite(userId, propertyId)` */
  method AddFavorite(db: Database, userId: int, propertyId: int, now: int) returns (r: AddResult)
    modifies db`favorites, db`nextId
    ensures db.favorites == AfterAdd(old(db.favorites), userId, propertyId, old(db.nextId), now)
    ensures old(IsFavorite(db, userId, propertyId)) <==> r == AlreadyExists
    ensures r == AlreadyExists ==> db.nextId == old(db.nextId)
    ensures r.Added? ==> r.row == FavoriteRow(old(db.nextId), userId, propertyId, now) &&
                         db.favorites == old(db.favorites) + [r.row]
    ensures IsFavorite(db, userId, propertyId)
  {
    AddIdempotent(db.favorites, userId, propertyId, db.nextId, now, db.nextId, now);
    if IsFavorite(db, userId, propertyId) {
      return AlreadyExists;
    }
    var id := db.FreshId();
    var row := FavoriteRow(id, userId, propertyId, now);
    db.favorites := db.favorites + [row];
    r := Added(row);
  }

  function FavoritesWithout(rows: seq<FavoriteRow>, userId: int, propertyId: int): (r: seq<FavoriteRow>)
    ensures forall f :: f in r <==> f in rows && !IsPair(f, userId, propertyId)
  {
    Where(rows, (f: FavoriteRow) => !IsPair(f, userId, propertyId))
  }

  /**
   * `removeFavorite(userId, propertyId)`: deletes every row of the pair and
   * no other, returning the first deleted row or undefined.
   */
  method RemoveFavorite(db: Database, userId: int, propertyId: int) returns (r: Option<FavoriteRow>)
    modifies db`favorites
    ensures db.favorites == FavoritesWithout(old(db.favorites), userId, propertyId)
    ensures r.None? <==> !old(IsFavorite(db, userId, propertyId))
    ensures r.Some? ==> r.value in old(db.favorites) && IsPair(r.value, userId, propertyId)
    ensures !IsFavorite(db, userId, propertyId)
  {
    r := FindPair(db.favorites, userId, propertyId);
    db.favorites := FavoritesWithout(db.favorites, userId, propertyId);
  }

  /** The favorite's property exists, is active and has its agent row (the two inner joins). */
  predicate ActiveJoin(f: FavoriteRow, properties: seq<PropertyRow>, agents: seq<AgentRow>)
  {
    var p := FindProperty(properties, f.propertyId);
    p.Some? && Column(p.value, "is_active") == Some(Bool(true)) && FindAgent(agents, p.value.agentId).Some?
  }

  function FavoriteCreatedAt(f: FavoriteRow): int { f.createdAt }

  /** The rows of `getUserFavorites(userId)`, without the joined property columns. */
  function UserFavorites(favorites: seq<FavoriteRow>, properties: seq<PropertyRow>, agents: seq<AgentRow>,
                         userId: int): seq<FavoriteRow>
  {
    SortDesc(Where(favorites, (f: FavoriteRow) => f.userId == userId && ActiveJoin(f, properties, agents)),
             FavoriteCreatedAt)
  }

  /** The listing holds exactly the user's favorites with an active property, newest first. */
  lemma UserFavoritesMeaning(favorites: seq<FavoriteRow>, properties: seq<PropertyRow>, agents: seq<AgentRow>,
                             userId: int)
    ensures Descending(UserFavorites(favorites, properties, agents, userId), FavoriteCreatedAt)
    ensures forall f :: f in UserFavorites(favorites, properties, agents, userId) <==>
      f in favorites && f.userId == userId && ActiveJoin(f, properties, agents)
  {
    var selected := Where(favorites, (f: FavoriteRow) => f.userId == userId && ActiveJoin(f, properties, agents));
    var r := UserFavorites(favorites, properties, agents, userId);
    assert r == SortDesc(selected, FavoriteCreatedAt);
    SortDescCorrect(selected, FavoriteCreatedAt);
    forall f ensures f in r <==> f in selected
    {
      assert f in r <==> f in multiset(r);
      assert f in selected <==> f in multiset(selected);
    }
  }

  /** `getUserFavorites(userId)`: only the user's rows whose property is active, newest first. */
  function GetUserFavorites(db: Database, userId: int): (r: seq<FavoriteRow>)
    reads db
    ensures Descending(r, FavoriteCreatedAt)
    ensures forall f :: f in r <==> f in db.favorites && f.userId == userId && ActiveJoin(f, db.properties, db.agents)
  {
    UserFavoritesMeaning(db.favorites, db.properties, db.agents, userId);
    UserFavorites(db.favorites, db.properties, db.agents, userId)
  }
}
