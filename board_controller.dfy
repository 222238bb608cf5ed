/**
 * The board controller: the pagination of `getAllPosts`, the post page, and
 * the checks of the handlers that write posts and comments.
 *
 * Every fetch through `getPostById` counts a view, including the fetch that
 * `updatePost`, `deletePost` and `addComment` make to see whether the post
 * exists; a request they then reject with 403, or fail with 500, has still
 * counted it. The comment handlers `updateComment` and `deleteComment` read
 * the comment through a `db` object that this file never defines, so they
 * end in their 500 response without touching a table.
 */
module BoardController {
  import opened Common
  import opened JsText
  import opened Db
  import opened Paging
  import opened BoardModel

  const POSTS_FAILED := Response(500, "Error getting posts")
  /** `getPostById` answers 200 with the post and no message. */
  const POST_FOUND := Response(200, "")
  const POST_NOT_FOUND := Response(404, "Post not found")
  const TITLE_CONTENT_REQUIRED := Response(400, "Title and content are required")
  const POST_CREATED := Response(201, "Post created successfully")
  const CREATE_POST_FAILED := Response(500, "Error creating post")
  const UPDATE_NOT_AUTHORIZED := Response(403, "Not authorized to update this post")
  const POST_UPDATED := Response(200, "Post updated successfully")
  const UPDATE_POST_FAILED := Response(500, "Error updating post")
  const DELETE_NOT_AUTHORIZED := Response(403, "Not authorized to delete this post")
  const POST_DELETED := Response(200, "Post deleted successfully")
  const DELETE_POST_FAILED := Response(500, "Error deleting post")
  const COMMENT_REQUIRED := Response(400, "Comment content is required")
  const COMMENT_ADDED := Response(201, "Comment added successfully")
  const ADD_COMMENT_FAILED := Response(500, "Error adding comment")
  const UPDATE_COMMENT_FAILED := Response(500, "Error updating comment")
  const DELETE_COMMENT_FAILED := Response(500, "Error deleting comment")

  // ---------------------------------------------------------------------
  // getAllPosts: pagination

  /** `category_id ? parseInt(category_id) : null` */
  function CategoryParam(q: Query): Value
  {
    if "category_id" in q && q["category_id"] != "" then ParseInt(q["category_id"]) else Null
  }

  /**
   * Only a category id that parses to a non-zero integer filters the
   * listing: a missing one, `0` and text with no leading digits list every
   * post.
   */
  lemma CategoryFilterNeedsNonZeroNumber(q: Query, rows: seq<PostRow>)
    ensures !(CategoryParam(q).Int? && CategoryParam(q).i != 0) ==> PostsInCategory(rows, CategoryParam(q)) == rows
    ensures CategoryParam(q).Int? && CategoryParam(q).i != 0 ==>
      forall p :: p in PostsInCategory(rows, CategoryParam(q)) <==> p in rows && p.categoryId == Some(CategoryParam(q).i)
  {
    if !(CategoryParam(q).Int? && CategoryParam(q).i != 0) {
      NoCategoryListsAll(rows, CategoryParam(q));
    }
  }

  datatype PostsReply = Posts(posts: seq<PostRow>, pagination: Pagination) | PostsFailed(response: Response)

  /** `getAllPosts(req, res)`: one page of posts and the pagination block. */
  method GetAllPostsHandler(db: Database, q: Query) returns (reply: PostsReply)
    ensures reply.PostsFailed? <==> !PagingOk(LimitValue(q), OffsetValue(q))
    ensures reply.PostsFailed? ==> reply.response == POSTS_FAILED
    ensures reply.Posts? ==>
      var total := |PostsInCategory(db.posts, CategoryParam(q))|;
      reply.posts == PostsPage(db.posts, db.users, LimitValue(q), OffsetValue(q), CategoryParam(q)).value &&
      reply.pagination == Pagination(total, PageValue(q), LimitValue(q), TotalPages(total, LimitNumber(q)))
  {
    var category := CategoryParam(q);
    var posts := GetAllPosts(db, LimitValue(q), ParseIntValue(OffsetValue(q)), category);
    if posts.DbError? {
      return PostsFailed(POSTS_FAILED);
    }
    var total := GetPostCount(db, category);
    reply := Posts(posts.value, Pagination(total, PageValue(q), LimitValue(q), TotalPages(total, LimitNumber(q))));
  }

  /**
   * When every post has its author's user row, page p of l posts is
   * non-empty exactly when p is at most the reported number of pages.
   */
  lemma PostPageNonEmptyIffWithinTotal(posts: seq<PostRow>, users: seq<UserRow>, q: Query, p: int, l: int)
    requires PageQuery(q, p, l) && p >= 1 && l >= 1
    requires forall x :: x in posts ==> FindUser(users, x.userId).Some?
    ensures PostsPage(posts, users, LimitValue(q), OffsetValue(q), CategoryParam(q)).Ok?
    ensures LimitNumber(q) == Some(l)
    ensures |PostsPage(posts, users, LimitValue(q), OffsetValue(q), CategoryParam(q)).value| > 0 <==>
            p <= TotalPages(|PostsInCategory(posts, CategoryParam(q))|, LimitNumber(q)).value
  {
    PageNumbers(q, p, l);
    var offset := (p - 1) * l;
    MultiplyMonotone(0, p - 1, l);
    var category := CategoryParam(q);
    CountAgreesWithListing(posts, users, category);
    var matching := PostsInCategory(AuthoredPosts(posts, users), category);
    var sorted := SortDesc(matching, PostCreatedAt);
    assert PostsPage(posts, users, LimitValue(q), OffsetValue(q), category) == Ok(Slice(sorted, offset, Some(l)));
    var total := |PostsInCategory(posts, category)|;
    assert total == |sorted|;
    assert TotalPages(total, LimitNumber(q)) == Some(CeilDiv(total, l));
    PageWithinTotal(sorted, p, l, offset);
  }

  // ---------------------------------------------------------------------
  // getPostById, createPost

  /** `getPostById(req, res)`: the fetch counts a view when the post exists. */
  method GetPostByIdHandler(db: Database, postId: int) returns (resp: Response, post: Option<PostPage>)
    modifies db`posts
    ensures db.posts == AfterFetch(old(db.posts), db.users, postId)
    ensures post == PostPageOf(old(db.posts), db.comments, db.users, postId)
    ensures resp == POST_NOT_FOUND <==> post.None?
    ensures post.Some? ==> resp == POST_FOUND
  {
    post := GetPostById(db, postId);
    if post.None? {
      return POST_NOT_FOUND, None;
    }
    resp := POST_FOUND;
  }

  /** `category_id || null` for a body field. */
  function BodyCategory(categoryId: Option<string>): (v: Value)
    ensures !TruthyStr(categoryId) ==> CategoryOf(v) == Ok(None)
    ensures TruthyStr(categoryId) ==> v == Str(categoryId.value)
  {
    if TruthyStr(categoryId) then Str(categoryId.value) else Null
  }

  /**
   * `createPost(req, res)`: 400 before any write when title or content is
   * missing; otherwise the post is inserted with the caller as author and
   * a falsy category stored as NULL.
   */
  method CreatePostHandler(db: Database, user: Claims, categoryId: Option<string>, title: Option<string>,
                           content: Option<string>, now: int) returns (resp: Response, post: Option<PostPage>)
    modifies db`posts, db`nextId
    ensures resp == TITLE_CONTENT_REQUIRED <==> !TruthyStr(title) || !TruthyStr(content)
    ensures resp == TITLE_CONTENT_REQUIRED ==> unchanged(db)
    ensures resp == CREATE_POST_FAILED <==>
      TruthyStr(title) && TruthyStr(content) && CategoryOf(BodyCategory(categoryId)).DbError?
    ensures resp == CREATE_POST_FAILED ==> unchanged(db)
    ensures resp != TITLE_CONTENT_REQUIRED && resp != CREATE_POST_FAILED ==>
      var row := NewPost(old(db.nextId), user.id, CategoryOf(BodyCategory(categoryId)).value, title.value,
                         content.value, now);
      resp == POST_CREATED && db.nextId == old(db.nextId) + 1 &&
      db.posts == AfterFetch(old(db.posts) + [row], db.users, row.id) &&
      post == PostPageOf(old(db.posts) + [row], db.comments, db.users, row.id)
  {
    if !TruthyStr(title) || !TruthyStr(content) {
      return TITLE_CONTENT_REQUIRED, None;
    }
    var created := CreatePost(db, user.id, BodyCategory(categoryId), title.value, content.value, now);
    if created.DbError? {
      return CREATE_POST_FAILED, None;
    }
    resp, post := POST_CREATED, created.value;
  }

  // ---------------------------------------------------------------------
  // updatePost, deletePost

  /** The author or an admin may change or delete a post. */
  predicate MayChange(user: Claims, post: PostRow)
  {
    post.userId == user.id || user.role == ADMIN
  }

  /** `category_id || post.category_id`: the new category, or the current one. */
  function KeptCategory(categoryId: Option<string>, current: Option<int>): (v: Value)
    ensures !TruthyStr(categoryId) ==> CategoryOf(v) == Ok(current)
  {
    if TruthyStr(categoryId) then Str(categoryId.value)
    else if current.Some? then Int(current.value) else Null
  }

  /**
   * `updatePost(req, res)`: 400 before any write; 404 for a missing post;
   * 403 unless the caller is its author or an admin, after the fetch has
   * counted a view; otherwise the edit, and a second view counted by the
   * fetch that returns the edited post.
   */
  method UpdatePostHandler(db: Database, user: Claims, postId: int, categoryId: Option<string>,
                           title: Option<string>, content: Option<string>, now: int)
    returns (resp: Response, post: Option<PostPage>)
    modifies db`posts
    ensures !TruthyStr(title) || !TruthyStr(content) ==>
      resp == TITLE_CONTENT_REQUIRED && db.posts == old(db.posts)
    ensures TruthyStr(title) && TruthyStr(content) && PostById(old(db.posts), db.users, postId).None? ==>
      resp == POST_NOT_FOUND && db.posts == old(db.posts)
    ensures TruthyStr(title) && TruthyStr(content) && PostById(old(db.posts), db.users, postId).Some? ==>
      var found := PostById(old(db.posts), db.users, postId).value;
      var viewed := Viewed(old(db.posts), postId);
      var category := CategoryOf(KeptCategory(categoryId, found.categoryId));
      (!MayChange(user, found) ==> resp == UPDATE_NOT_AUTHORIZED && db.posts == viewed) &&
      (MayChange(user, found) && category.DbError? ==> resp == UPDATE_POST_FAILED && db.posts == viewed) &&
      (MayChange(user, found) && category.Ok? ==>
         var edited := Edited(viewed, postId, category.value, title.value, content.value, now);
         resp == POST_UPDATED && db.posts == AfterFetch(edited, db.users, postId) &&
         post == PostPageOf(edited, db.comments, db.users, postId))
    ensures resp == POST_UPDATED ==>
      FindPost(old(db.posts), postId).Some? && FindPost(db.posts, postId).Some? &&
      FindPost(db.posts, postId).value.views == FindPost(old(db.posts), postId).value.views + 2 &&
      (!TruthyStr(categoryId) ==> FindPost(db.posts, postId).value.categoryId == FindPost(old(db.posts), postId).value.categoryId)
  {
    if !TruthyStr(title) || !TruthyStr(content) {
      return TITLE_CONTENT_REQUIRED, None;
    }
    var before := db.posts;
    var fetched := GetPostById(db, postId);
    if fetched.None? {
      return POST_NOT_FOUND, None;
    }
    var found := fetched.value.post;
    if !MayChange(user, found) {
      return UPDATE_NOT_AUTHORIZED, None;
    }
    var viewed := db.posts;
    var updated := UpdatePost(db, postId, KeptCategory(categoryId, found.categoryId), title.value, content.value, now);
    if updated.DbError? {
      return UPDATE_POST_FAILED, None;
    }
    ViewedFound(before, postId);
    var category := CategoryOf(KeptCategory(categoryId, found.categoryId)).value;
    EditedFound(viewed, postId, category, title.value, content.value, now);
    ViewedFound(Edited(viewed, postId, category, title.value, content.value, now), postId);
    resp, post := POST_UPDATED, updated.value;
  }

  /**
   * `deletePost(req, res)`: 404 for a missing post; 403 unless the caller is
   * its author or an admin, after the fetch has counted a view; otherwise
   * the post and its comments go together, or neither when the transaction
   * fails.
   */
  method DeletePostHandler(db: Database, user: Claims, postId: int, fault: Fault) returns (resp: Response)
    modifies db`posts, db`comments
    ensures PostById(old(db.posts), db.users, postId).None? ==>
      resp == POST_NOT_FOUND && db.posts == old(db.posts) && db.comments == old(db.comments)
    ensures PostById(old(db.posts), db.users, postId).Some? ==>
      var found := PostById(old(db.posts), db.users, postId).value;
      (!MayChange(user, found) ==>
         resp == DELETE_NOT_AUTHORIZED && db.posts == Viewed(old(db.posts), postId) && db.comments == old(db.comments)) &&
      (MayChange(user, found) && fault.FailAt? && fault.step <= 2 ==>
         resp == DELETE_POST_FAILED && db.posts == Viewed(old(db.posts), postId) && db.comments == old(db.comments)) &&
      (MayChange(user, found) && !(fault.FailAt? && fault.step <= 2) ==>
         resp == POST_DELETED && db.posts == PostsWithout(old(db.posts), postId) &&
         db.comments == CommentsNotOf(old(db.comments), postId))
  {
    var before := db.posts;
    var fetched := GetPostById(db, postId);
    if fetched.None? {
      return POST_NOT_FOUND;
    }
    if !MayChange(user, fetched.value.post) {
      return DELETE_NOT_AUTHORIZED;
    }
    var deleted := DeletePost(db, postId, fault);
    if deleted.DbError? {
      return DELETE_POST_FAILED;
    }
    DeleteAfterView(before, postId);
    resp := POST_DELETED;
  }

  // ---------------------------------------------------------------------
  // Comments

  /**
   * `addComment(req, res)`: 400 and 404 before any write (the 404 after a
   * fetch that found nothing, so nothing changes); otherwise a view of the
   * post is counted and the comment inserted with the caller as author.
   */
  method AddCommentHandler(db: Database, user: Claims, postId: int, content: Option<string>, now: int)
    returns (resp: Response, comment: Option<CommentRow>)
    modifies db`posts, db`comments, db`nextId
    ensures resp == COMMENT_REQUIRED <==> !TruthyStr(content)
    ensures resp == COMMENT_REQUIRED ==> unchanged(db)
    ensures TruthyStr(content) && PostById(old(db.posts), db.users, postId).None? ==>
      resp == POST_NOT_FOUND && unchanged(db)
    ensures TruthyStr(content) && PostById(old(db.posts), db.users, postId).Some? ==>
      var row := CommentRow(old(db.nextId), postId, user.id, content.value, now, now);
      db.posts == Viewed(old(db.posts), postId) && db.comments == old(db.comments) + [row] &&
      db.nextId == old(db.nextId) + 1 &&
      (FindUser(db.users, user.id).Some? ==> resp == COMMENT_ADDED && comment == Some(row)) &&
      (FindUser(db.users, user.id).None? ==> resp == ADD_COMMENT_FAILED && comment.None?)
  {
    if !TruthyStr(content) {
      return COMMENT_REQUIRED, None;
    }
    var fetched := GetPostById(db, postId);
    if fetched.None? {
      return POST_NOT_FOUND, None;
    }
    var added := AddComment(db, postId, user.id, content.value, now);
    if added.DbError? {
      return ADD_COMMENT_FAILED, None;
    }
    resp, comment := COMMENT_ADDED, Some(added.value);
  }

  /**
   * `updateComment(req, res)`: 400 for empty content; past that check the
   * lookup through the undefined `db` throws, so the answer is 500. The
   * method may change nothing.
   */
  method UpdateCommentHandler(db: Database, user: Claims, commentId: int, content: Option<string>)
    returns (resp: Response)
    ensures resp == COMMENT_REQUIRED <==> !TruthyStr(content)
    ensures TruthyStr(content) ==> resp == UPDATE_COMMENT_FAILED
  {
    if !TruthyStr(content) {
      return COMMENT_REQUIRED;
    }
    resp := UPDATE_COMMENT_FAILED;
  }

  /**
   * `deleteComment(req, res)`: the lookup through the undefined `db` throws
   * before the ownership check, so the answer is always 500 and the method
   * may change nothing.
   */
  method DeleteCommentHandler(db: Database, user: Claims, commentId: int) returns (resp: Response)
    ensures resp == DELETE_COMMENT_FAILED
  {
    resp := DELETE_COMMENT_FAILED;
  }
}
