/**
 * The admin controller: deleting a user and the board-category handlers,
 * which query the tables directly. Its `verifyAgent` is the agent
 * controller's, statement for statement, and is modelled there.
 */
module AdminController {
  import opened Common
  import opened Db
  import opened UserModel

  const USER_NOT_FOUND := Response(404, "User not found")
  const USER_DELETED := Response(200, "User deleted successfully")
  const CATEGORY_NAME_REQUIRED := Response(400, "Category name is required")
  const CATEGORY_CREATED := Response(201, "Category created successfully")
  const CATEGORY_NOT_FOUND := Response(404, "Category not found")
  const CATEGORY_UPDATED := Response(200, "Category updated successfully")
  const CATEGORY_DELETED := Response(200, "Category deleted successfully")

  /**
   * `deleteUser(req, res)` (the user controller's `deleteUser` is the same
   * code): 404 for an unknown user, otherwise its rows are removed.
   */
  method DeleteUserHandler(db: Database, userId: int) returns (resp: Response)
    modifies db`users
    ensures old(UserById(db, userId)).None? ==> resp == USER_NOT_FOUND && db.users == old(db.users)
    ensures old(UserById(db, userId)).Some? ==> resp == USER_DELETED && db.users == UsersWithout(old(db.users), userId)
    ensures forall u :: u in db.users ==> u.id != userId
  {
    var user := UserById(db, userId);
    if user.None? {
      return USER_NOT_FOUND;
    }
    var deleted := DeleteUser(db, userId);
    resp := USER_DELETED;
  }

  /** `createCategory(req, res)`: the new row, with `description || null`. */
  method CreateCategory(db: Database, name: Option<string>, description: Option<string>)
    returns (resp: Response, created: Option<CategoryRow>)
    modifies db`categories, db`nextId
    ensures !TruthyStr(name) ==> resp == CATEGORY_NAME_REQUIRED && created.None? && unchanged(db)
    ensures TruthyStr(name) ==>
      resp == CATEGORY_CREATED &&
      created == Some(CategoryRow(old(db.nextId), name.value, StrOrNull(description))) &&
      db.categories == old(db.categories) + [created.value]
  {
    if !TruthyStr(name) {
      return CATEGORY_NAME_REQUIRED, None;
    }
    var id := db.FreshId();
    var row := CategoryRow(id, name.value, StrOrNull(description));
    db.categories := db.categories + [row];
    resp, created := CATEGORY_CREATED, Some(row);
  }

  /** The categories table after `UPDATE board_categories SET name, description WHERE category_id`. */
  function RenamedCategories(rows: seq<CategoryRow>, id: int, name: string, description: Option<string>)
    : (r: seq<CategoryRow>)
    ensures |r| == |rows|
    ensures forall k :: 0 <= k < |r| ==> r[k].id == rows[k].id
    ensures forall k :: 0 <= k < |r| && rows[k].id != id ==> r[k] == rows[k]
    ensures forall k :: 0 <= k < |r| && rows[k].id == id ==> r[k].name == name && r[k].description == description
  {
    seq(|rows|, k requires 0 <= k < |rows| =>
      if rows[k].id == id then rows[k].(name := name, description := description) else rows[k])
  }

  /** `updateCategory(req, res)`: 400 without a name, 404 when no row has the id. */
  method UpdateCategory(db: Database, id: int, name: Option<string>, description: Option<string>)
    returns (resp: Response)
    modifies db`categories
    ensures !TruthyStr(name) ==> resp == CATEGORY_NAME_REQUIRED && db.categories == old(db.categories)
    ensures TruthyStr(name) ==>
      db.categories == RenamedCategories(old(db.categories), id, name.value, StrOrNull(description)) &&
      (resp == CATEGORY_NOT_FOUND <==> FindCategory(old(db.categories), id).None?) &&
      (resp != CATEGORY_NOT_FOUND ==> resp == CATEGORY_UPDATED)
  {
    if !TruthyStr(name) {
      return CATEGORY_NAME_REQUIRED;
    }
    var found := FindCategory(db.categories, id);
    db.categories := RenamedCategories(db.categories, id, name.value, StrOrNull(description));
    resp := if found.None? then CATEGORY_NOT_FOUND else CATEGORY_UPDATED;
  }

  /** The posts after `UPDATE board_posts SET category_id = NULL WHERE category_id = $1`. */
  function Uncategorized(posts: seq<PostRow>, categoryId: int): (r: seq<PostRow>)
    ensures |r| == |posts|
    ensures forall k :: 0 <= k < |r| ==> r[k] == (if posts[k].categoryId == Some(categoryId)
                                                   then posts[k].(categoryId := None) else posts[k])
  {
    seq(|posts|, k requires 0 <= k < |posts| =>
      if posts[k].categoryId == Some(categoryId) then posts[k].(categoryId := None) else posts[k])
  }

  /** After the update no post is in the category, and every post is otherwise kept. */
  lemma UncategorizedMeaning(posts: seq<PostRow>, categoryId: int)
    ensures forall p :: p in Uncategorized(posts, categoryId) ==> p.categoryId != Some(categoryId)
    ensures forall k :: 0 <= k < |posts| ==>
      Uncategorized(posts, categoryId)[k].(categoryId := posts[k].categoryId) == posts[k]
  {
  }

  function CategoriesWithout(rows: seq<CategoryRow>, id: int): (r: seq<CategoryRow>)
    ensures forall c :: c in r <==> c in rows && c.id != id
  {
    Where(rows, (c: CategoryRow) => c.id != id)
  }

  /**
   * `deleteCategory(req, res)`: the category's posts lose their category
   * first, and they do even when no category has the id and 404 is returned.
   */
  method DeleteCategory(db: Database, id: int) returns (resp: Response)
    modifies db`posts, db`categories
    ensures db.posts == Uncategorized(old(db.posts), id)
    ensures db.categories == CategoriesWithout(old(db.categories), id)
    ensures resp == CATEGORY_NOT_FOUND <==> FindCategory(old(db.categories), id).None?
    ensures resp != CATEGORY_NOT_FOUND ==> resp == CATEGORY_DELETED
  {
    db.posts := Uncategorized(db.posts, id);
    var found := FindCategory(db.categories, id);
    db.categories := CategoriesWithout(db.categories, id);
    resp := if found.None? then CATEGORY_NOT_FOUND else CATEGORY_DELETED;
  }
}
