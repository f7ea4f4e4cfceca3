/** The rating routes: create, update, delete and list. None of them checks who is calling:
    any caller may change or delete any rating. */
module RatingRoutes {
  import opened Common
  import opened Schema

  const NOT_FOUND: string := "Rating not found"
  const DELETED: string := "Rating deleted successfully"

  /** The error, if any, the database raises for an INSERT of a rating with these columns:
      a value that does not fit the INT column fails while the parameter is bound, then the
      CHECK is evaluated, then the foreign keys. */
  function InsertError(db: Database, value: Option<int>, userId: Option<Id>, recipeId: Option<Id>): (e: Option<DbError>)
    reads db
    ensures e.None? <==> ValueInRange(value) && References(userId, db.users) && References(recipeId, db.recipes)
    ensures !FitsInt4(value) ==> e == Some(NumericOutOfRange)
    ensures e.Some? && FitsInt4(value) && !ValueInRange(value) ==> e == Some(CheckViolation)
    ensures e.Some? && ValueInRange(value) ==> e == Some(ForeignKeyViolation)
  {
    if !FitsInt4(value) then Some(NumericOutOfRange)
    else if !ValueInRange(value) then Some(CheckViolation)
    else if !References(userId, db.users) || !References(recipeId, db.recipes) then Some(ForeignKeyViolation)
    else None
  }

  /** POST /: inserts one rating with value, user_id and recipe_id from the body and answers
      201 with it; a value outside the INT range or outside 1..5, or a dangling reference,
      makes the INSERT fail and the error goes to next(err). */
  method CreateRating(db: Database, value: Option<int>, userId: Option<Id>, recipeId: Option<Id>, now: Time)
    returns (r: Reply<Rating>)
    requires db.Valid()
    modifies db
    ensures db.Valid()
    ensures db.users == old(db.users) && db.recipes == old(db.recipes) && db.bookmarks == old(db.bookmarks)
    ensures old(InsertError(db, value, userId, recipeId)).Some? ==>
      r == Forwarded(old(InsertError(db, value, userId, recipeId)).value) && db.ratings == old(db.ratings)
    ensures old(InsertError(db, value, userId, recipeId)).None? ==>
      && r == Sent(201, Rating(old(db.nextId), value, userId, recipeId, now))
      && r.body.id !in old(db.ratings)
      && db.ratings == old(db.ratings)[r.body.id := r.body]
  {
    var error := InsertError(db, value, userId, recipeId);
    if error.Some? {
      return Forwarded(error.value);
    }
    var id := db.FreshId();
    var rating := Rating(id, value, userId, recipeId, now);
    db.ratings := db.ratings[id := rating];
    r := Sent(201, rating);
  }

  /** PUT /:id: sets value and created_at of the rating with that id and answers with it;
      every other column and every other rating stay as they were. A value outside the INT
      range fails while the parameter is bound, whether or not the id exists; otherwise 404
      when no rating has the id, and a value outside 1..5 fails the CHECK. */
  method UpdateRating(db: Database, id: Id, value: Option<int>, now: Time) returns (r: Reply<Rating>)
    requires db.Valid()
    modifies db
    ensures db.Valid()
    ensures db.users == old(db.users) && db.recipes == old(db.recipes) && db.bookmarks == old(db.bookmarks)
    ensures db.nextId == old(db.nextId)
    ensures !FitsInt4(value) ==> r == Forwarded(NumericOutOfRange) && db.ratings == old(db.ratings)
    ensures FitsInt4(value) && id !in old(db.ratings) ==> r == Rejected(404, NOT_FOUND) && db.ratings == old(db.ratings)
    ensures FitsInt4(value) && id in old(db.ratings) && !ValueInRange(value) ==>
      r == Forwarded(CheckViolation) && db.ratings == old(db.ratings)
    ensures id in old(db.ratings) && ValueInRange(value) ==>
      var before := old(db.ratings)[id];
      && r == Sent(200, Rating(id, value, before.userId, before.recipeId, now))
      && db.ratings == old(db.ratings)[id := r.body]
  {
    if !FitsInt4(value) {
      return Forwarded(NumericOutOfRange);
    }
    if id !in db.ratings {
      return Rejected(404, NOT_FOUND);
    }
    if !ValueInRange(value) {
      return Forwarded(CheckViolation);
    }
    var updated := db.ratings[id].(value := value, createdAt := now);
    db.ratings := db.ratings[id := updated];
    r := Sent(200, updated);
  }

  /** DELETE /:id: removes exactly that rating, or answers 404. */
  method DeleteRating(db: Database, id: Id) returns (r: Reply<string>)
    requires db.Valid()
    modifies db
    ensures db.Valid()
    ensures db.users == old(db.users) && db.recipes == old(db.recipes) && db.bookmarks == old(db.bookmarks)
    ensures db.nextId == old(db.nextId)
    ensures id !in old(db.ratings) ==> r == Rejected(404, NOT_FOUND) && db.ratings == old(db.ratings)
    ensures id in old(db.ratings) ==> r == Sent(200, DELETED) && db.ratings == old(db.ratings) - {id}
  {
    if id !in db.ratings {
      return Rejected(404, NOT_FOUND);
    }
    db.ratings := db.ratings - {id};
    r := Sent(200, DELETED);
  }

  /** GET /?recipe_id=...: the ratings of that recipe, or every rating without the filter. */
  function ListRatings(db: Database, recipeId: Option<Id>): (r: Reply<set<Rating>>)
    reads db
    ensures r.Sent? && r.status == 200
    ensures recipeId.None? ==> r.body == db.ratings.Values
    ensures recipeId.Some? ==> forall x :: x in r.body <==> x in db.ratings.Values && x.recipeId == recipeId
  {
    match recipeId
    case None => Sent(200, set id | id in db.ratings :: db.ratings[id])
    case Some(recipe) => Sent(200, set id | id in db.ratings && db.ratings[id].recipeId == Some(recipe) :: db.ratings[id])
  }
}
