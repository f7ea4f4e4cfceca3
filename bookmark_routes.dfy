/** The bookmark routes: add a (user, recipe) pair, remove it, and list one user's
    bookmarks joined with their recipes. Both ids come from the request. */
module BookmarkRoutes {
  import opened Common
  import opened Schema

  const NOT_FOUND: string := "Bookmark not found"
  const REMOVED: string := "Bookmark removed successfully"

  /** A row of the user listing: the bookmark with its recipe's title and content. */
  datatype BookmarkView = BookmarkView(userId: Id, recipeId: Id, title: string, content: string)

  /** POST /: adds the pair and answers 201 with it. A missing id violates the primary key's
      NOT NULL, a pair already present its uniqueness, an id that names no row a foreign key;
      each error goes to next(err) and nothing changes. */
  method AddBookmark(db: Database, userId: Option<Id>, recipeId: Option<Id>) returns (r: Reply<Bookmark>)
    requires db.Valid()
    modifies db
    ensures db.Valid()
    ensures db.users == old(db.users) && db.recipes == old(db.recipes) && db.ratings == old(db.ratings)
    ensures db.nextId == old(db.nextId)
    ensures userId.None? || recipeId.None? ==> r == Forwarded(NotNullViolation) && db.bookmarks == old(db.bookmarks)
    ensures userId.Some? && recipeId.Some? ==>
      var b := Bookmark(userId.value, recipeId.value);
      && (b in old(db.bookmarks) ==> r == Forwarded(UniqueViolation) && db.bookmarks == old(db.bookmarks))
      && (b !in old(db.bookmarks) && (b.userId !in db.users || b.recipeId !in db.recipes) ==>
            r == Forwarded(ForeignKeyViolation) && db.bookmarks == old(db.bookmarks))
      && (b !in old(db.bookmarks) && b.userId in db.users && b.recipeId in db.recipes ==>
            r == Sent(201, b) && db.bookmarks == old(db.bookmarks) + {b})
  {
    if userId.None? || recipeId.None? {
      return Forwarded(NotNullViolation);
    }
    var b := Bookmark(userId.value, recipeId.value);
    if b in db.bookmarks {
      return Forwarded(UniqueViolation);
    }
    if b.userId !in db.users || b.recipeId !in db.recipes {
      return Forwarded(ForeignKeyViolation);
    }
    db.bookmarks := db.bookmarks + {b};
    r := Sent(201, b);
  }

  /** DELETE /: removes exactly the bookmark with both ids, leaving every other user's
      bookmark of the recipe in place; 404 when there is none (a null id matches nothing). */
  method RemoveBookmark(db: Database, userId: Option<Id>, recipeId: Option<Id>) returns (r: Reply<string>)
    requires db.Valid()
    modifies db
    ensures db.Valid()
    ensures db.users == old(db.users) && db.recipes == old(db.recipes) && db.ratings == old(db.ratings)
    ensures db.nextId == old(db.nextId)
    ensures userId.None? || recipeId.None? ==> r == Rejected(404, NOT_FOUND) && db.bookmarks == old(db.bookmarks)
    ensures userId.Some? && recipeId.Some? ==>
      var b := Bookmark(userId.value, recipeId.value);
      && (b !in old(db.bookmarks) ==> r == Rejected(404, NOT_FOUND) && db.bookmarks == old(db.bookmarks))
      && (b in old(db.bookmarks) ==> r == Sent(200, REMOVED) && db.bookmarks == old(db.bookmarks) - {b})
    ensures recipeId.Some? ==> forall b :: b in old(db.bookmarks) && b.recipeId == recipeId.value && Some(b.userId) != userId ==> b in db.bookmarks
  {
    if userId.None? || recipeId.None? {
      return Rejected(404, NOT_FOUND);
    }
    var b := Bookmark(userId.value, recipeId.value);
    if b !in db.bookmarks {
      return Rejected(404, NOT_FOUND);
    }
    db.bookmarks := db.bookmarks - {b};
    r := Sent(200, REMOVED);
  }

  /** Adding a new bookmark and then removing the same pair leaves the bookmarks as they were. */
  method AddThenRemove(db: Database, userId: Id, recipeId: Id) returns (added: Reply<Bookmark>, removed: Reply<string>)
    requires db.Valid()
    modifies db
    ensures added.Sent? ==> removed.Sent? && db.bookmarks == old(db.bookmarks)
    ensures db.users == old(db.users) && db.recipes == old(db.recipes) && db.ratings == old(db.ratings)
  {
    added := AddBookmark(db, Some(userId), Some(recipeId));
    removed := RemoveBookmark(db, Some(userId), Some(recipeId));
  }

  /** GET /user/:userId: that user's bookmarks, each with its recipe's title and content;
      a bookmark whose recipe does not exist has no partner in the inner join. */
  function BookmarksOfUser(db: Database, userId: Id): (r: Reply<set<BookmarkView>>)
    reads db
    ensures r.Sent? && r.status == 200
    ensures forall v :: v in r.body <==>
      && v.userId == userId
      && Bookmark(v.userId, v.recipeId) in db.bookmarks
      && v.recipeId in db.recipes
      && v.title == db.recipes[v.recipeId].title
      && v.content == db.recipes[v.recipeId].content
  {
    Sent(200, set b | b in db.bookmarks && b.userId == userId && b.recipeId in db.recipes ::
                BookmarkView(b.userId, b.recipeId, db.recipes[b.recipeId].title, db.recipes[b.recipeId].content))
  }

  /** In a consistent database every bookmark of the user shows up in the listing. */
  lemma EveryBookmarkListed(db: Database, userId: Id, recipeId: Id)
    requires db.Valid() && Bookmark(userId, recipeId) in db.bookmarks
    ensures exists v :: v in BookmarksOfUser(db, userId).body && v.recipeId == recipeId
  {
    var recipe := db.recipes[recipeId];
    assert BookmarkView(userId, recipeId, recipe.title, recipe.content) in BookmarksOfUser(db, userId).body;
  }
}
