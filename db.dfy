/**
 * The PostgreSQL database the backend talks to, as in-memory tables.
 *
 * Every table is a sequence of rows held by one `Database` object; the model
 * functions of the backend change these fields in place. Row ids come from a
 * single counter that only grows, as SERIAL sequences do (a rolled-back insert
 * still consumes its id). Timestamps are integers supplied by the caller.
 *
 * The module also holds the three relational steps every listing uses:
 * selecting the rows that satisfy a predicate, ordering them newest first,
 * and cutting one page out with OFFSET and LIMIT.
 */
module Db {
  import opened Common

  datatype UserRow = UserRow(
    id: int, username: string, passwordHash: string, email: string,
    phoneNumber: string, role: string, createdAt: int, updatedAt: int)

  datatype AgentRow = AgentRow(
    id: int, userId: int, licenseImage: Option<string>, companyName: Option<string>,
    officeAddress: Option<string>, status: string, createdAt: int, updatedAt: int)

  /**
   * A property row. The 24 columns the application writes (address, deposit,
   * ..., district, is_active) are kept by column name; a missing key or `Null`
   * is SQL NULL.
   */
  datatype PropertyRow = PropertyRow(
    id: int, agentId: int, cols: map<string, Value>, createdAt: int, updatedAt: int)

  datatype ImageRow = ImageRow(id: int, propertyId: int, path: string, isThumbnail: bool)

  datatype FavoriteRow = FavoriteRow(id: int, userId: int, propertyId: int, createdAt: int)

  datatype ContactRow = ContactRow(
    id: int, userId: int, propertyId: int, agentId: int, message: Option<string>,
    isRead: bool, createdAt: int, updatedAt: int)

  datatype CategoryRow = CategoryRow(id: int, name: string, description: Option<string>)

  datatype PostRow = PostRow(
    id: int, userId: int, categoryId: Option<int>, title: string, content: string,
    views: int, createdAt: int, updatedAt: int)

  datatype CommentRow = CommentRow(
    id: int, postId: int, userId: int, content: string, createdAt: int, updatedAt: int)

  /** The tables of the application database. */
  class Database {
    var users: seq<UserRow>
    var agents: seq<AgentRow>
    var properties: seq<PropertyRow>
    var images: seq<ImageRow>
    var favorites: seq<FavoriteRow>
    var contacts: seq<ContactRow>
    var categories: seq<CategoryRow>
    var posts: seq<PostRow>
    var comments: seq<CommentRow>
    /** The next value handed out by the id sequences. */
    var nextId: int

    /** An empty database. */
    constructor ()
      ensures users == [] && agents == [] && properties == [] && images == []
      ensures favorites == [] && contacts == [] && categories == [] && posts == [] && comments == []
      ensures nextId == 1
    {
      users, agents, properties, images := [], [], [], [];
      favorites, contacts, categories, posts, comments := [], [], [], [], [];
      nextId := 1;
    }

    /** Every image id is used once and lies below the id counter. */
    predicate ImagesValid()
      reads this
    {
      DistinctIds(images, ImageId) && forall m :: m in images ==> m.id < nextId
    }

    /** Hands out a fresh id. */
    method FreshId() returns (id: int)
      modifies this`nextId
      ensures id == old(nextId) && nextId == id + 1
    {
      id := nextId;
      nextId := nextId + 1;
    }
  }

  // ---------------------------------------------------------------------
  // Lookups by key

  /** The user row with the given id, if any. */
  function FindUser(users: seq<UserRow>, id: int): (r: Option<UserRow>)
    ensures r.Some? ==> r.value in users && r.value.id == id
    ensures r.None? <==> forall u :: u in users ==> u.id != id
  {
    if users == [] then None
    else if users[0].id == id then Some(users[0])
    else FindUser(users[1..], id)
  }

  /** The agent row with the given id, if any. */
  function FindAgent(agents: seq<AgentRow>, id: int): (r: Option<AgentRow>)
    ensures r.Some? ==> r.value in agents && r.value.id == id
    ensures r.None? <==> forall a :: a in agents ==> a.id != id
  {
    if agents == [] then None
    else if agents[0].id == id then Some(agents[0])
    else FindAgent(agents[1..], id)
  }

  /** The first agent row of the given user, if any. */
  function FindAgentOfUser(agents: seq<AgentRow>, userId: int): (r: Option<AgentRow>)
    ensures r.Some? ==> r.value in agents && r.value.userId == userId
    ensures r.None? <==> forall a :: a in agents ==> a.userId != userId
  {
    if agents == [] then None
    else if agents[0].userId == userId then Some(agents[0])
    else FindAgentOfUser(agents[1..], userId)
  }

  /** The property row with the given id, if any. */
  function FindProperty(properties: seq<PropertyRow>, id: int): (r: Option<PropertyRow>)
    ensures r.Some? ==> r.value in properties && r.value.id == id
    ensures r.None? <==> forall p :: p in properties ==> p.id != id
  {
    if properties == [] then None
    else if properties[0].id == id then Some(properties[0])
    else FindProperty(properties[1..], id)
  }

  /** The first image row with the given id, if any. */
  function FindImage(images: seq<ImageRow>, id: int): (r: Option<ImageRow>)
    ensures r.Some? ==> r.value in images && r.value.id == id
    ensures r.None? <==> forall m :: m in images ==> m.id != id
  {
    if images == [] then None
    else if images[0].id == id then Some(images[0])
    else FindImage(images[1..], id)
  }

  /** The post row with the given id, if any. */
  function FindPost(posts: seq<PostRow>, id: int): (r: Option<PostRow>)
    ensures r.Some? ==> r.value in posts && r.value.id == id
    ensures r.None? <==> forall p :: p in posts ==> p.id != id
  {
    if posts == [] then None
    else if posts[0].id == id then Some(posts[0])
    else FindPost(posts[1..], id)
  }

  /** The category row with the given id, if any. */
  function FindCategory(categories: seq<CategoryRow>, id: int): (r: Option<CategoryRow>)
    ensures r.Some? ==> r.value in categories && r.value.id == id
    ensures r.None? <==> forall c :: c in categories ==> c.id != id
  {
    if categories == [] then None
    else if categories[0].id == id then Some(categories[0])
    else FindCategory(categories[1..], id)
  }

  // ---------------------------------------------------------------------
  // WHERE, ORDER BY ... DESC, OFFSET/LIMIT

  /** The rows satisfying p, in table order. */
  function Where<T(!new)>(rows: seq<T>, p: T -> bool): (r: seq<T>)
    ensures |r| <= |rows|
    ensures forall x :: x in r <==> x in rows && p(x)
  {
    if rows == [] then []
    else if p(rows[0]) then [rows[0]] + Where(rows[1..], p)
    else Where(rows[1..], p)
  }

  /** Two predicates that agree on every row select the same rows. */
  lemma {:induction false} WhereCongruence<T(!new)>(rows: seq<T>, p: T -> bool, q: T -> bool)
    requires forall x :: x in rows ==> p(x) == q(x)
    ensures Where(rows, p) == Where(rows, q)
  {
    if rows != [] {
      WhereCongruence(rows[1..], p, q);
    }
  }

  /** Selecting never adds a row or duplicates one. */
  lemma {:induction false} WhereMultiset<T(!new)>(rows: seq<T>, p: T -> bool)
    ensures multiset(Where(rows, p)) <= multiset(rows)
  {
    if rows != [] {
      WhereMultiset(rows[1..], p);
      assert rows == [rows[0]] + rows[1..];
    }
  }

  /** The rows satisfying p and the rows failing it together are the table. */
  lemma {:induction false} WherePartition<T(!new)>(rows: seq<T>, p: T -> bool, q: T -> bool)
    requires forall x :: q(x) == !p(x)
    ensures multiset(Where(rows, p)) + multiset(Where(rows, q)) == multiset(rows)
  {
    if rows != [] {
      var x, rest := rows[0], rows[1..];
      WherePartition(rest, p, q);
      assert rows == [x] + rest;
      assert multiset(rows) == multiset{x} + multiset(rest);
      if p(x) {
        assert multiset(Where(rows, p)) == multiset{x} + multiset(Where(rest, p));
        assert Where(rows, q) == Where(rest, q);
      } else {
        assert Where(rows, p) == Where(rest, p);
        assert multiset(Where(rows, q)) == multiset{x} + multiset(Where(rest, q));
      }
    }
  }

  /** No two rows share an id: the primary key of a table. */
  predicate DistinctIds<T>(rows: seq<T>, id: T -> int)
  {
    forall i, j :: 0 <= i < j < |rows| ==> id(rows[i]) != id(rows[j])
  }

  function ImageId(m: ImageRow): int { m.id }

  /** Deleting rows keeps the ids of the others distinct. */
  lemma {:induction false} WhereDistinct<T(!new)>(rows: seq<T>, p: T -> bool, id: T -> int)
    requires DistinctIds(rows, id)
    ensures DistinctIds(Where(rows, p), id)
  {
    if rows != [] {
      var tail := rows[1..];
      assert DistinctIds(tail, id) by {
        forall i, j | 0 <= i < j < |tail| ensures id(tail[i]) != id(tail[j])
        {
          assert tail[i] == rows[i + 1] && tail[j] == rows[j + 1];
        }
      }
      WhereDistinct(tail, p, id);
      if p(rows[0]) {
        var r := Where(rows, p);
        forall j | 0 < j < |r| ensures id(r[0]) != id(r[j])
        {
          assert r[j] in Where(tail, p);
          var k :| 0 <= k < |tail| && tail[k] == r[j];
          assert rows[k + 1] == r[j];
        }
      }
    }
  }

  /** No row passes p. */
  lemma {:induction false} WhereNone<T(!new)>(rows: seq<T>, p: T -> bool)
    requires forall x :: x in rows ==> !p(x)
    ensures Where(rows, p) == []
  {
    if rows != [] {
      WhereNone(rows[1..], p);
    }
  }

  /** Every row passes p. */
  lemma {:induction false} WhereAll<T(!new)>(rows: seq<T>, p: T -> bool)
    requires forall x :: x in rows ==> p(x)
    ensures Where(rows, p) == rows
  {
    if rows != [] {
      WhereAll(rows[1..], p);
      assert rows == [rows[0]] + rows[1..];
    }
  }

  /** The number of rows satisfying p: what `COUNT(*)` returns. */
  function Count<T>(rows: seq<T>, p: T -> bool): (n: nat)
    ensures n <= |rows|
  {
    if rows == [] then 0
    else (if p(rows[0]) then 1 else 0) + Count(rows[1..], p)
  }

  /** `COUNT(*)` agrees with the number of rows the same WHERE selects. */
  lemma {:induction false} CountIsWhereLength<T(!new)>(rows: seq<T>, p: T -> bool)
    ensures Count(rows, p) == |Where(rows, p)|
  {
    if rows != [] {
      CountIsWhereLength(rows[1..], p);
    }
  }

  /** Ordered newest first by the key. */
  predicate Descending<T>(rows: seq<T>, key: T -> int)
  {
    forall i, j :: 0 <= i < j < |rows| ==> key(rows[i]) >= key(rows[j])
  }

  /**
   * x placed into a list ordered newest first, ahead of every row that is not
   * newer than x.
   */
  function InsertDesc<T>(x: T, rows: seq<T>, key: T -> int): (r: seq<T>)
    ensures multiset(r) == multiset(rows) + multiset{x}
    ensures |r| == |rows| + 1
  {
    if rows == [] || key(rows[0]) <= key(x) then [x] + rows
    else
      assert rows == [rows[0]] + rows[1..];
      [rows[0]] + InsertDesc(x, rows[1..], key)
  }

  lemma {:induction false} InsertDescSorted<T>(x: T, rows: seq<T>, key: T -> int)
    requires Descending(rows, key)
    ensures Descending(InsertDesc(x, rows, key), key)
    ensures forall y :: y in InsertDesc(x, rows, key) ==> y == x || y in rows
  {
    if rows != [] && key(rows[0]) > key(x) {
      InsertDescSorted(x, rows[1..], key);
      var tail := InsertDesc(x, rows[1..], key);
      forall y | y in tail ensures key(rows[0]) >= key(y)
      {
        if y != x {
          var k :| 0 <= k < |rows[1..]| && rows[1..][k] == y;
          assert rows[k + 1] == y;
        }
      }
    }
  }

  /**
   * `ORDER BY key DESC`. Rows with equal keys keep their table order; the
   * database leaves their order open, and every property proved about the
   * result (ordering, same rows) holds for any order of ties.
   */
  function SortDesc<T>(rows: seq<T>, key: T -> int): (r: seq<T>)
    ensures |r| == |rows|
    ensures multiset(r) == multiset(rows)
  {
    if rows == [] then []
    else
      assert rows == [rows[0]] + rows[1..];
      InsertDesc(rows[0], SortDesc(rows[1..], key), key)
  }

  /** The ordered rows are exactly the input rows, newest first. */
  lemma {:induction false} SortDescCorrect<T>(rows: seq<T>, key: T -> int)
    ensures Descending(SortDesc(rows, key), key)
    ensures multiset(SortDesc(rows, key)) == multiset(rows)
  {
    if rows != [] {
      var rest := SortDesc(rows[1..], key);
      SortDescCorrect(rows[1..], key);
      InsertDescSorted(rows[0], rest, key);
    }
  }

  /**
   * `OFFSET offset LIMIT limit` on an ordered result; `None` is no LIMIT.
   * An offset past the end gives no rows.
   */
  function Slice<T>(rows: seq<T>, offset: nat, limit: Option<nat>): (r: seq<T>)
    ensures offset >= |rows| ==> r == []
    ensures offset < |rows| ==> r == rows[offset..if limit.Some? && offset + limit.value < |rows| then offset + limit.value else |rows|]
  {
    if offset >= |rows| then []
    else if limit.Some? && offset + limit.value < |rows| then rows[offset..offset + limit.value]
    else rows[offset..]
  }

  /** A page holds at most LIMIT rows, all from the ordered result, in its order. */
  lemma SliceBounds<T>(rows: seq<T>, offset: nat, limit: Option<nat>)
    ensures limit.Some? ==> |Slice(rows, offset, limit)| <= limit.value
    ensures |Slice(rows, offset, limit)| <= |rows|
    ensures forall k :: 0 <= k < |Slice(rows, offset, limit)| ==>
      offset + k < |rows| && Slice(rows, offset, limit)[k] == rows[offset + k]
  {
  }

  /** A page of rows is drawn from the rows and keeps their order. */
  lemma SliceOfDescending<T>(rows: seq<T>, offset: nat, limit: Option<nat>, key: T -> int)
    requires Descending(rows, key)
    ensures Descending(Slice(rows, offset, limit), key)
    ensures forall x :: x in Slice(rows, offset, limit) ==> x in rows
  {
    var r := Slice(rows, offset, limit);
    SliceBounds(rows, offset, limit);
    forall x | x in r ensures x in rows
    {
      var k :| 0 <= k < |r| && r[k] == x;
      assert rows[offset + k] == x;
    }
  }
}
