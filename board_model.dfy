/**
 * The board model: the paged post listing and its count, the post page that
 * counts one view on every fetch, the post and comment writes, and the
 * transaction that deletes a post together with its comments.
 *
 * The joined display columns (the author's username, the category name, the
 * comment count) are not carried in the results; a post or comment whose
 * author has no user row is still left out of every query that joins `users`.
 * A new post starts with 0 views.
 */
module BoardModel {
  import opened Common
  import opened JsText
  import opened Sql
  import opened Db

  function PostCreatedAt(p: PostRow): int { p.createdAt }

  /** `ORDER BY created_at ASC` is ordering newest first by the negated time. */
  function CommentAge(c: CommentRow): int { -c.createdAt }

  // ---------------------------------------------------------------------
  // getAllPosts and getPostCount

  /** The post's category_id column as a SQL value. */
  function CategoryColumn(p: PostRow): Value
  {
    if p.categoryId.Some? then Int(p.categoryId.value) else Null
  }

  /** The category condition both queries share: none unless categoryId is truthy. */
  predicate InCategory(categoryId: Value, p: PostRow)
  {
    !Truthy(categoryId) || (p.categoryId.Some? && categoryId == Int(p.categoryId.value))
  }

  /** Every WHERE conjunct of the built query holds of the post. */
  predicate PostHolds(p: PostRow, clauses: seq<Clause>, values: seq<Value>)
    requires Numbered(clauses, values)
  {
    forall k :: 0 <= k < |clauses| && clauses[k].Cond? ==>
      Compare(clauses[k].op, if clauses[k].column == "category_id" then Some(CategoryColumn(p)) else None, values[k])
  }

  /** The rows the built WHERE selects. */
  function SelectedPosts(rows: seq<PostRow>, clauses: seq<Clause>, values: seq<Value>): seq<PostRow>
    requires Numbered(clauses, values)
  {
    Where(rows, (p: PostRow) => PostHolds(p, clauses, values))
  }

  /** The rows of the category, or every row when categoryId is falsy. */
  function PostsInCategory(rows: seq<PostRow>, categoryId: Value): seq<PostRow>
  {
    Where(rows, (p: PostRow) => InCategory(categoryId, p))
  }

  /** `FROM board_posts bp JOIN users u ON bp.user_id = u.user_id` */
  function AuthoredPosts(posts: seq<PostRow>, users: seq<UserRow>): seq<PostRow>
  {
    Where(posts, (p: PostRow) => FindUser(users, p.userId).Some?)
  }

  /** LIMIT and OFFSET parameters that PostgreSQL accepts. */
  predicate PagingOk(limit: Value, offset: Value)
  {
    SqlInt(limit).Some? && SqlInt(limit).value >= 0 && SqlInt(offset).Some? && SqlInt(offset).value >= 0
  }

  /** What `getAllPosts(limit, offset, categoryId)` returns. */
  function PostsPage(posts: seq<PostRow>, users: seq<UserRow>, limit: Value, offset: Value, categoryId: Value)
    : (r: Result<seq<PostRow>>)
    ensures r.Ok? <==> PagingOk(limit, offset)
    ensures r.Ok? ==> |r.value| <= SqlInt(limit).value
  {
    if !PagingOk(limit, offset) then DbError
    else Ok(Slice(SortDesc(PostsInCategory(AuthoredPosts(posts, users), categoryId), PostCreatedAt),
                  SqlInt(offset).value, Some(SqlInt(limit).value)))
  }

  /** LIMIT and OFFSET add no condition on the rows. */
  lemma PostHoldsIgnoresPaging(clauses: seq<Clause>, values: seq<Value>, limit: Value, offset: Value)
    requires Numbered(clauses, values)
    ensures Numbered(clauses + [LimitBy(|values| + 1), OffsetBy(|values| + 2)], values + [limit, offset])
    ensures forall p :: PostHolds(p, clauses + [LimitBy(|values| + 1), OffsetBy(|values| + 2)], values + [limit, offset]) <==>
      PostHolds(p, clauses, values)
  {
    var cs, vs := clauses + [LimitBy(|values| + 1), OffsetBy(|values| + 2)], values + [limit, offset];
    assert forall k :: 0 <= k < |clauses| ==> cs[k] == clauses[k] && vs[k] == values[k];
    assert !cs[|clauses|].Cond? && !cs[|clauses| + 1].Cond?;
  }

  /**
   * The query of `getAllPosts`: the category condition on `$1` when
   * categoryId is truthy, then LIMIT and OFFSET on the next two placeholders.
   */
  method BuildPostsQuery(limit: Value, offset: Value, categoryId: Value) returns (clauses: seq<Clause>, values: seq<Value>)
    ensures Numbered(clauses, values)
    ensures |values| == if Truthy(categoryId) then 3 else 2
    ensures Truthy(categoryId) ==> clauses[0] == Cond("category_id", Equals, 1) && values[0] == categoryId
    ensures clauses[|clauses| - 2] == LimitBy(|values| - 1) && values[|values| - 2] == limit
    ensures clauses[|clauses| - 1] == OffsetBy(|values|) && values[|values| - 1] == offset
    ensures forall p :: PostHolds(p, clauses, values) <==> InCategory(categoryId, p)
    ensures ParamsOk(clauses, values) <==> PagingOk(limit, offset)
    ensures ParamsOk(clauses, values) ==>
      LimitOf(clauses, values) == Some(SqlInt(limit).value) && OffsetOf(clauses, values) == SqlInt(offset).value
  {
    clauses, values := [], [];
    if Truthy(categoryId) {
      values := values + [categoryId];
      clauses := clauses + [Cond("category_id", Equals, |values|)];
    }
    PagingAppended(clauses, values, limit, offset);
    PostHoldsIgnoresPaging(clauses, values, limit, offset);
    clauses := clauses + [LimitBy(|values| + 1), OffsetBy(|values| + 2)];
    values := values + [limit, offset];
  }

  /** The query of `getPostCount`: the same category condition, nothing else. */
  method BuildCountQuery(categoryId: Value) returns (clauses: seq<Clause>, values: seq<Value>)
    ensures Numbered(clauses, values) && ParamsOk(clauses, values)
    ensures |values| == if Truthy(categoryId) then 1 else 0
    ensures forall p :: PostHolds(p, clauses, values) <==> InCategory(categoryId, p)
  {
    clauses, values := [], [];
    if Truthy(categoryId) {
      values := values + [categoryId];
      clauses := clauses + [Cond("category_id", Equals, 1)];
    }
    forall p ensures PostHolds(p, clauses, values) <==> InCategory(categoryId, p)
    {
      if Truthy(categoryId) {
        assert |clauses| == 1 && clauses[0] == Cond("category_id", Equals, 1) && values[0] == categoryId;
        if PostHolds(p, clauses, values) {
          assert Compare(clauses[0].op, Some(CategoryColumn(p)), values[0]);
        }
      }
    }
  }

  /** The rows the built WHERE selects are the rows of the category. */
  lemma SelectedIsInCategory(rows: seq<PostRow>, clauses: seq<Clause>, values: seq<Value>, categoryId: Value)
    requires Numbered(clauses, values)
    requires forall p :: PostHolds(p, clauses, values) <==> InCategory(categoryId, p)
    ensures SelectedPosts(rows, clauses, values) == PostsInCategory(rows, categoryId)
  {
    WhereCongruence(rows, (p: PostRow) => PostHolds(p, clauses, values), (p: PostRow) => InCategory(categoryId, p));
  }

  /** `getAllPosts(limit, offset, categoryId)`, run against the tables. */
  method GetAllPosts(db: Database, limit: Value, offset: Value, categoryId: Value) returns (r: Result<seq<PostRow>>)
    ensures r == PostsPage(db.posts, db.users, limit, offset, categoryId)
  {
    var clauses, values := BuildPostsQuery(limit, offset, categoryId);
    if !ParamsOk(clauses, values) {
      return DbError;
    }
    var base := AuthoredPosts(db.posts, db.users);
    SelectedIsInCategory(base, clauses, values, categoryId);
    r := Ok(Slice(SortDesc(SelectedPosts(base, clauses, values), PostCreatedAt),
                  OffsetOf(clauses, values), LimitOf(clauses, values)));
  }

  /** `getPostCount(categoryId)`: no join, so posts without an author row count too. */
  method GetPostCount(db: Database, categoryId: Value) returns (total: nat)
    ensures total == |PostsInCategory(db.posts, categoryId)|
  {
    var clauses, values := BuildCountQuery(categoryId);
    SelectedIsInCategory(db.posts, clauses, values, categoryId);
    CountIsWhereLength(db.posts, (p: PostRow) => PostHolds(p, clauses, values));
    total := Count(db.posts, (p: PostRow) => PostHolds(p, clauses, values));
  }

  /**
   * A page of the listing holds at most LIMIT posts, newest first, each an
   * existing post of the category whose author has a user row.
   */
  lemma PostsPageMeaning(posts: seq<PostRow>, users: seq<UserRow>, limit: Value, offset: Value, categoryId: Value)
    requires PostsPage(posts, users, limit, offset, categoryId).Ok?
    ensures var page := PostsPage(posts, users, limit, offset, categoryId).value;
      Descending(page, PostCreatedAt) && |page| <= SqlInt(limit).value &&
      forall p :: p in page ==> p in posts && InCategory(categoryId, p) && FindUser(users, p.userId).Some?
  {
    var matching := PostsInCategory(AuthoredPosts(posts, users), categoryId);
    var sorted := SortDesc(matching, PostCreatedAt);
    SortDescCorrect(matching, PostCreatedAt);
    var o, l := SqlInt(offset).value, Some(SqlInt(limit).value);
    var page := Slice(sorted, o, l);
    assert PostsPage(posts, users, limit, offset, categoryId).value == page;
    SliceBounds(sorted, o, l);
    SliceOfDescending(sorted, o, l, PostCreatedAt);
    forall p | p in page
      ensures p in matching
    {
      assert p in multiset(sorted);
    }
  }

  /** A falsy category id filters nothing. */
  lemma NoCategoryListsAll(rows: seq<PostRow>, categoryId: Value)
    requires !Truthy(categoryId)
    ensures PostsInCategory(rows, categoryId) == rows
  {
    WhereAll(rows, (p: PostRow) => InCategory(categoryId, p));
  }

  /**
   * When every post has its author's user row, the count is the number of
   * posts the listing shows over all its pages.
   */
  lemma CountAgreesWithListing(posts: seq<PostRow>, users: seq<UserRow>, categoryId: Value)
    requires forall p :: p in posts ==> FindUser(users, p.userId).Some?
    ensures |PostsInCategory(posts, categoryId)| == |SortDesc(PostsInCategory(AuthoredPosts(posts, users), categoryId), PostCreatedAt)|
  {
    WhereAll(posts, (p: PostRow) => FindUser(users, p.userId).Some?);
  }

  // ---------------------------------------------------------------------
  // getPostById: the view counter

  /** A post as `getPostById` returns it: the row and its comments. */
  datatype PostPage = PostPage(post: PostRow, comments: seq<CommentRow>)

  /** The post row the first query finds: the post with the id, joined with its author. */
  function PostById(posts: seq<PostRow>, users: seq<UserRow>, postId: int): (r: Option<PostRow>)
    ensures r.Some? ==> r.value in posts && r.value.id == postId && FindUser(users, r.value.userId).Some?
    ensures r.None? <==> FindPost(posts, postId).None? || FindUser(users, FindPost(posts, postId).value.userId).None?
  {
    var p := FindPost(posts, postId);
    if p.Some? && FindUser(users, p.value.userId).Some? then p else None
  }

  function CommentRowsOf(comments: seq<CommentRow>, users: seq<UserRow>, postId: int): seq<CommentRow>
  {
    Where(comments, (c: CommentRow) => c.postId == postId && FindUser(users, c.userId).Some?)
  }

  /** The comments query: the post's comments joined with their authors, oldest first. */
  function CommentsOf(comments: seq<CommentRow>, users: seq<UserRow>, postId: int): seq<CommentRow>
  {
    SortDesc(CommentRowsOf(comments, users, postId), CommentAge)
  }

  /** The comments shown are exactly the post's comments with an author, oldest first. */
  lemma CommentsOfMeaning(comments: seq<CommentRow>, users: seq<UserRow>, postId: int)
    ensures var r := CommentsOf(comments, users, postId);
      (forall i, j :: 0 <= i < j < |r| ==> r[i].createdAt <= r[j].createdAt) &&
      forall c :: c in r <==> c in comments && c.postId == postId && FindUser(users, c.userId).Some?
  {
    var rows := CommentRowsOf(comments, users, postId);
    SortDescCorrect(rows, CommentAge);
    var r := CommentsOf(comments, users, postId);
    forall c ensures c in r <==> c in rows
    {
      assert c in r <==> c in multiset(r);
    }
  }

  /** What `getPostById(postId)` returns. */
  function PostPageOf(posts: seq<PostRow>, comments: seq<CommentRow>, users: seq<UserRow>, postId: int)
    : Option<PostPage>
  {
    var p := PostById(posts, users, postId);
    if p.Some? then Some(PostPage(p.value, CommentsOf(comments, users, postId))) else None
  }

  /** `UPDATE board_posts SET views = views + 1 WHERE post_id = $1` */
  function Viewed(posts: seq<PostRow>, postId: int): (r: seq<PostRow>)
    ensures |r| == |posts|
  {
    seq(|posts|, k requires 0 <= k < |posts| =>
      if posts[k].id == postId then posts[k].(views := posts[k].views + 1) else posts[k])
  }

  /** The posts table after `getPostById(postId)`: one more view when the post was found. */
  function AfterFetch(posts: seq<PostRow>, users: seq<UserRow>, postId: int): seq<PostRow>
  {
    if PostById(posts, users, postId).Some? then Viewed(posts, postId) else posts
  }

  /**
   * `getPostById(postId)`: null and no change when the post (with its
   * author) is missing; otherwise the row as read before the view is
   * counted, and the view counter of the stored row one higher.
   */
  method GetPostById(db: Database, postId: int) returns (r: Option<PostPage>)
    modifies db`posts
    ensures db.posts == AfterFetch(old(db.posts), db.users, postId)
    ensures r == PostPageOf(old(db.posts), db.comments, db.users, postId)
    ensures r.None? ==> db.posts == old(db.posts)
    ensures r.Some? ==>
      FindPost(db.posts, postId).Some? && FindPost(db.posts, postId).value.views == r.value.post.views + 1
  {
    var post := PostById(db.posts, db.users, postId);
    if post.None? {
      return None;
    }
    var rows := db.posts;
    db.posts := Viewed(rows, postId);
    ViewedFound(rows, postId);
    r := Some(PostPage(post.value, CommentsOf(db.comments, db.users, postId)));
  }

  /** A view changes only the counter of the post with the id, by one. */
  lemma ViewedFound(posts: seq<PostRow>, postId: int)
    ensures FindPost(posts, postId).None? ==> Viewed(posts, postId) == posts
    ensures FindPost(posts, postId).Some? ==>
      FindPost(Viewed(posts, postId), postId) == Some(FindPost(posts, postId).value.(views := FindPost(posts, postId).value.views + 1))
    ensures forall k :: 0 <= k < |posts| && posts[k].id != postId ==> Viewed(posts, postId)[k] == posts[k]
  {
    PostUpdatedFound(posts, Viewed(posts, postId), postId, (p: PostRow) => p.(views := p.views + 1));
    if FindPost(posts, postId).None? {
      assert Viewed(posts, postId) == posts;
    }
  }

  /** After an update in place by id, the lookup finds the patched row. */
  lemma {:induction false} PostUpdatedFound(before: seq<PostRow>, after: seq<PostRow>, postId: int, patch: PostRow -> PostRow)
    requires |after| == |before|
    requires forall k :: 0 <= k < |after| ==>
      after[k] == (if before[k].id == postId then patch(before[k]) else before[k])
    requires forall p :: patch(p).id == p.id
    ensures FindPost(before, postId).None? ==> FindPost(after, postId).None?
    ensures FindPost(before, postId).Some? ==> FindPost(after, postId) == Some(patch(FindPost(before, postId).value))
  {
    if before != [] && before[0].id != postId {
      PostUpdatedFound(before[1..], after[1..], postId, patch);
    }
  }

  // ---------------------------------------------------------------------
  // createPost and updatePost

  /** PostgreSQL's conversion of the category parameter: NULL, an integer, or an error. */
  function CategoryOf(v: Value): (r: Result<Option<int>>)
    ensures v.Null? ==> r == Ok(None)
    ensures r.Ok? && r.value.Some? ==> SqlInt(v) == Some(r.value.value)
    ensures r.DbError? <==> !v.Null? && SqlInt(v).None?
  {
    if v.Null? then Ok(None)
    else if SqlInt(v).Some? then Ok(Some(SqlInt(v).value))
    else DbError
  }

  /** The row `createPost` inserts. */
  function NewPost(id: int, userId: int, categoryId: Option<int>, title: string, content: string, now: int): PostRow
  {
    PostRow(id, userId, categoryId, title, content, 0, now, now)
  }

  /**
   * `createPost(postData)`: inserts the post and returns it through
   * `getPostById`, which counts a view of the new post.
   */
  method CreatePost(db: Database, userId: int, categoryId: Value, title: string, content: string, now: int)
    returns (r: Result<Option<PostPage>>)
    modifies db`posts, db`nextId
    ensures CategoryOf(categoryId).DbError? ==> r.DbError? && unchanged(db)
    ensures CategoryOf(categoryId).Ok? ==>
      var row := NewPost(old(db.nextId), userId, CategoryOf(categoryId).value, title, content, now);
      db.nextId == old(db.nextId) + 1 &&
      db.posts == AfterFetch(old(db.posts) + [row], db.users, row.id) &&
      r == Ok(PostPageOf(old(db.posts) + [row], db.comments, db.users, row.id))
  {
    var category := CategoryOf(categoryId);
    if category.DbError? {
      return DbError;
    }
    var id := db.FreshId();
    db.posts := db.posts + [NewPost(id, userId, category.value, title, content, now)];
    var page := GetPostById(db, id);
    r := Ok(page);
  }

  /**
   * A post inserted under a fresh id is returned as inserted, with the views
   * it was created with, and stored with one view more, when its author
   * exists.
   */
  lemma CreatedPostViewed(posts: seq<PostRow>, comments: seq<CommentRow>, users: seq<UserRow>, row: PostRow)
    requires forall p :: p in posts ==> p.id != row.id
    requires FindUser(users, row.userId).Some?
    ensures PostPageOf(posts + [row], comments, users, row.id) == Some(PostPage(row, CommentsOf(comments, users, row.id)))
    ensures AfterFetch(posts + [row], users, row.id) == posts + [row.(views := row.views + 1)]
  {
    var all := posts + [row];
    assert forall p :: p in all ==> p == row || p in posts;
    assert FindPost(all, row.id) == Some(row) by {
      var found := FindPost(all, row.id);
      assert found.Some? by { assert all[|posts|] == row; }
    }
    assert Viewed(all, row.id) == posts + [row.(views := row.views + 1)] by {
      forall k | 0 <= k < |posts| ensures all[k].id != row.id
      {
        assert all[k] == posts[k];
      }
    }
  }

  /** The row after `updatePost`: category, title, content and updated_at change. */
  function EditPost(p: PostRow, categoryId: Option<int>, title: string, content: string, now: int): (e: PostRow)
    ensures e.id == p.id && e.userId == p.userId && e.views == p.views && e.createdAt == p.createdAt
  {
    p.(categoryId := categoryId, title := title, content := content, updatedAt := now)
  }

  /** `UPDATE board_posts SET category_id = $1, title = $2, content = $3, updated_at = NOW() WHERE post_id = $4` */
  function Edited(posts: seq<PostRow>, postId: int, categoryId: Option<int>, title: string, content: string, now: int)
    : (r: seq<PostRow>)
    ensures |r| == |posts|
  {
    seq(|posts|, k requires 0 <= k < |posts| =>
      if posts[k].id == postId then EditPost(posts[k], categoryId, title, content, now) else posts[k])
  }

  /** An edit changes only the post with the id, as EditPost describes. */
  lemma EditedFound(posts: seq<PostRow>, postId: int, categoryId: Option<int>, title: string, content: string, now: int)
    ensures FindPost(posts, postId).None? ==> Edited(posts, postId, categoryId, title, content, now) == posts
    ensures FindPost(posts, postId).Some? ==>
      FindPost(Edited(posts, postId, categoryId, title, content, now), postId) ==
      Some(EditPost(FindPost(posts, postId).value, categoryId, title, content, now))
  {
    PostUpdatedFound(posts, Edited(posts, postId, categoryId, title, content, now), postId,
                     (p: PostRow) => EditPost(p, categoryId, title, content, now));
    if FindPost(posts, postId).None? {
      assert Edited(posts, postId, categoryId, title, content, now) == posts;
    }
  }

  /**
   * `updatePost(postId, postData)`: null and no change when no post has the
   * id; otherwise the edited post returned through `getPostById`, which
   * counts a view.
   */
  method UpdatePost(db: Database, postId: int, categoryId: Value, title: string, content: string, now: int)
    returns (r: Result<Option<PostPage>>)
    modifies db`posts
    ensures CategoryOf(categoryId).DbError? ==> r.DbError? && db.posts == old(db.posts)
    ensures CategoryOf(categoryId).Ok? && FindPost(old(db.posts), postId).None? ==>
      r == Ok(None) && db.posts == old(db.posts)
    ensures CategoryOf(categoryId).Ok? && FindPost(old(db.posts), postId).Some? ==>
      var edited := Edited(old(db.posts), postId, CategoryOf(categoryId).value, title, content, now);
      db.posts == AfterFetch(edited, db.users, postId) &&
      r == Ok(PostPageOf(edited, db.comments, db.users, postId))
  {
    var category := CategoryOf(categoryId);
    if category.DbError? {
      return DbError;
    }
    if FindPost(db.posts, postId).None? {
      EditedFound(db.posts, postId, category.value, title, content, now);
      return Ok(None);
    }
    db.posts := Edited(db.posts, postId, category.value, title, content, now);
    var page := GetPostById(db, postId);
    r := Ok(page);
  }

  // ---------------------------------------------------------------------
  // deletePost, addComment, deleteComment

  /** `DELETE FROM board_posts WHERE post_id = $1` */
  function PostsWithout(posts: seq<PostRow>, postId: int): (r: seq<PostRow>)
    ensures forall p :: p in r <==> p in posts && p.id != postId
  {
    Where(posts, (p: PostRow) => p.id != postId)
  }

  /** `DELETE FROM board_comments WHERE post_id = $1` */
  function CommentsNotOf(comments: seq<CommentRow>, postId: int): (r: seq<CommentRow>)
    ensures forall c :: c in r <==> c in comments && c.postId != postId
  {
    Where(comments, (c: CommentRow) => c.postId != postId)
  }

  /**
   * `deletePost(postId)`: one transaction that deletes the post's comments,
   * then the post. Statement 0 and 1 are the deletes and 2 is COMMIT; a
   * failure at any of them rolls both back. The result is the deleted row,
   * or none when no post had the id.
   */
  method DeletePost(db: Database, postId: int, fault: Fault) returns (r: Result<Option<PostRow>>)
    modifies db`posts, db`comments
    ensures fault.FailAt? && fault.step <= 2 ==>
      r.DbError? && db.posts == old(db.posts) && db.comments == old(db.comments)
    ensures !(fault.FailAt? && fault.step <= 2) ==>
      db.posts == PostsWithout(old(db.posts), postId) &&
      db.comments == CommentsNotOf(old(db.comments), postId) &&
      r == Ok(FindPost(old(db.posts), postId))
    ensures r.Ok? ==>
      (forall p :: p in db.posts ==> p.id != postId) && (forall c :: c in db.comments ==> c.postId != postId)
  {
    var posts, comments := db.posts, db.comments;
    if FailsAt(fault, 0) {
      return DbError;
    }
    db.comments := CommentsNotOf(db.comments, postId);
    if FailsAt(fault, 1) {
      db.comments := comments;
      return DbError;
    }
    var deleted := FindPost(db.posts, postId);
    db.posts := PostsWithout(db.posts, postId);
    if FailsAt(fault, 2) {
      db.posts, db.comments := posts, comments;
      return DbError;
    }
    r := Ok(deleted);
  }

  /** Counting a view of a post and then deleting it leaves what deleting it leaves. */
  lemma {:induction false} DeleteAfterView(posts: seq<PostRow>, postId: int)
    ensures PostsWithout(Viewed(posts, postId), postId) == PostsWithout(posts, postId)
  {
    if posts != [] {
      DeleteAfterView(posts[1..], postId);
      assert Viewed(posts, postId)[1..] == Viewed(posts[1..], postId);
    }
  }

  /**
   * `addComment(commentData)`: inserts the comment, then reads its author's
   * username; with no such user the read throws after the insert.
   */
  method AddComment(db: Database, postId: int, userId: int, content: string, now: int) returns (r: Result<CommentRow>)
    modifies db`comments, db`nextId
    ensures db.nextId == old(db.nextId) + 1
    ensures db.comments == old(db.comments) + [CommentRow(old(db.nextId), postId, userId, content, now, now)]
    ensures r.Ok? <==> FindUser(db.users, userId).Some?
    ensures r.Ok? ==> r.value == CommentRow(old(db.nextId), postId, userId, content, now, now)
  {
    var id := db.FreshId();
    var row := CommentRow(id, postId, userId, content, now, now);
    db.comments := db.comments + [row];
    if FindUser(db.users, userId).None? {
      return DbError;
    }
    r := Ok(row);
  }

  /** The first comment row with the given id, if any. */
  function FindComment(comments: seq<CommentRow>, id: int): (r: Option<CommentRow>)
    ensures r.Some? ==> r.value in comments && r.value.id == id
    ensures r.None? <==> forall c :: c in comments ==> c.id != id
  {
    if comments == [] then None
    else if comments[0].id == id then Some(comments[0])
    else FindComment(comments[1..], id)
  }

  /** `DELETE FROM board_comments WHERE comment_id = $1` */
  function CommentsWithout(comments: seq<CommentRow>, commentId: int): (r: seq<CommentRow>)
    ensures forall c :: c in r <==> c in comments && c.id != commentId
  {
    Where(comments, (c: CommentRow) => c.id != commentId)
  }

  /** `deleteComment(commentId)`: removes that comment only and returns it, or nothing. */
  method DeleteComment(db: Database, commentId: int) returns (r: Option<CommentRow>)
    modifies db`comments
    ensures db.comments == CommentsWithout(old(db.comments), commentId)
    ensures r == FindComment(old(db.comments), commentId)
    ensures forall c :: c in old(db.comments) && c.id != commentId ==> c in db.comments
  {
    r := FindComment(db.comments, commentId);
    db.comments := CommentsWithout(db.comments, commentId);
  }
}
