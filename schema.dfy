/** The four tables created by the migration, with their constraints (NOT NULL, UNIQUE,
    CHECK, PRIMARY KEY, REFERENCES ... ON DELETE CASCADE) as the invariant `Valid()` of
    an in-memory database. Each table is a map from row id to row. NOT NULL text columns
    are plain strings: a statement that would store null fails before it reaches a table. */
module Schema {
  import opened Common

  datatype User = User(id: Id, email: string, password: string, createdAt: Time, updatedAt: Time)

  datatype Recipe = Recipe(id: Id, title: string, content: string, userId: Option<Id>,
                           createdAt: Time, updatedAt: Time)

  datatype Rating = Rating(id: Id, value: Option<int>, userId: Option<Id>, recipeId: Option<Id>,
                           createdAt: Time)

  /** A bookmark row; its primary key is the whole row, so the table is a set. */
  datatype Bookmark = Bookmark(userId: Id, recipeId: Id)

  /** A nullable foreign key is either null or names an existing row. */
  predicate References<T>(ref: Option<Id>, table: map<Id, T>)
  {
    ref.Some? ==> ref.value in table
  }

  /** The range of an INT (int4) column. */
  const INT4_MIN: int := -0x8000_0000
  const INT4_MAX: int := 0x7FFF_FFFF

  /** The parameter can be bound to an INT column: null, or a 32-bit signed integer. */
  predicate FitsInt4(v: Option<int>)
  {
    v.Some? ==> INT4_MIN <= v.value <= INT4_MAX
  }

  /** CHECK (value BETWEEN 1 AND 5): null passes the check. */
  predicate ValueInRange(v: Option<int>)
  {
    v.Some? ==> 1 <= v.value <= 5
  }

  /** Some user of the table has this email. */
  predicate EmailTaken(users: map<Id, User>, email: string)
  {
    exists id :: id in users && users[id].email == email
  }

  /** UNIQUE email, and each row stored under its own id, below the next fresh id. */
  predicate UsersValid(users: map<Id, User>, nextId: Id)
  {
    && (forall id :: id in users ==> users[id].id == id && id < nextId)
    && (forall a, b :: a in users && b in users && users[a].email == users[b].email ==> a == b)
  }

  predicate RecipesValid(recipes: map<Id, Recipe>, users: map<Id, User>, nextId: Id)
  {
    forall id :: id in recipes ==>
      recipes[id].id == id && id < nextId && References(recipes[id].userId, users)
  }

  predicate RatingsValid(ratings: map<Id, Rating>, users: map<Id, User>, recipes: map<Id, Recipe>, nextId: Id)
  {
    forall id :: id in ratings ==>
      && ratings[id].id == id && id < nextId
      && ValueInRange(ratings[id].value)
      && References(ratings[id].userId, users)
      && References(ratings[id].recipeId, recipes)
  }

  predicate BookmarksValid(bookmarks: set<Bookmark>, users: map<Id, User>, recipes: map<Id, Recipe>)
  {
    forall b :: b in bookmarks ==> b.userId in users && b.recipeId in recipes
  }

  /** Every constraint of the schema at once. */
  predicate Consistent(users: map<Id, User>, recipes: map<Id, Recipe>, ratings: map<Id, Rating>,
                       bookmarks: set<Bookmark>, nextId: Id)
  {
    && UsersValid(users, nextId)
    && RecipesValid(recipes, users, nextId)
    && RatingsValid(ratings, users, recipes, nextId)
    && BookmarksValid(bookmarks, users, recipes)
  }

  /** The recipes left once the recipes `gone` are deleted. */
  function DropRecipes(recipes: map<Id, Recipe>, gone: set<Id>): (left: map<Id, Recipe>)
    ensures forall id :: id in left <==> id in recipes && id !in gone
    ensures forall id :: id in left ==> left[id] == recipes[id]
  {
    map id | id in recipes && id !in gone :: recipes[id]
  }

  /** A rating that refers to a deleted user or a deleted recipe. */
  predicate RatingCascades(r: Rating, goneUsers: set<Id>, goneRecipes: set<Id>)
  {
    (r.userId.Some? && r.userId.value in goneUsers) || (r.recipeId.Some? && r.recipeId.value in goneRecipes)
  }

  /** ON DELETE CASCADE on ratings.user_id and ratings.recipe_id. */
  function CascadeRatings(ratings: map<Id, Rating>, goneUsers: set<Id>, goneRecipes: set<Id>): (left: map<Id, Rating>)
    ensures forall id :: id in left <==> id in ratings && !RatingCascades(ratings[id], goneUsers, goneRecipes)
    ensures forall id :: id in left ==> left[id] == ratings[id]
  {
    map id | id in ratings && !RatingCascades(ratings[id], goneUsers, goneRecipes) :: ratings[id]
  }

  /** ON DELETE CASCADE on bookmarks.user_id and bookmarks.recipe_id. */
  function CascadeBookmarks(bookmarks: set<Bookmark>, goneUsers: set<Id>, goneRecipes: set<Id>): (left: set<Bookmark>)
    ensures forall b :: b in left <==> b in bookmarks && b.userId !in goneUsers && b.recipeId !in goneRecipes
  {
    set b | b in bookmarks && b.userId !in goneUsers && b.recipeId !in goneRecipes
  }

  /** The recipes a user owns, which go with the user. */
  function OwnedRecipes(recipes: map<Id, Recipe>, user: Id): (owned: set<Id>)
    ensures forall id :: id in owned <==> id in recipes && recipes[id].userId == Some(user)
  {
    set id | id in recipes && recipes[id].userId == Some(user)
  }

  /** Deleting recipes (and, with them, what refers to them) keeps every constraint. */
  lemma DeleteRecipesKeepsConsistent(users: map<Id, User>, recipes: map<Id, Recipe>, ratings: map<Id, Rating>,
                                     bookmarks: set<Bookmark>, nextId: Id, gone: set<Id>)
    requires Consistent(users, recipes, ratings, bookmarks, nextId)
    ensures Consistent(users, DropRecipes(recipes, gone), CascadeRatings(ratings, {}, gone),
                       CascadeBookmarks(bookmarks, {}, gone), nextId)
  {
  }

  /** Deleting a user, the recipes they own and everything that refers to either keeps
      every constraint: no foreign key is left dangling. */
  lemma DeleteUserKeepsConsistent(users: map<Id, User>, recipes: map<Id, Recipe>, ratings: map<Id, Rating>,
                                  bookmarks: set<Bookmark>, nextId: Id, user: Id)
    requires Consistent(users, recipes, ratings, bookmarks, nextId)
    ensures var gone := OwnedRecipes(recipes, user);
            Consistent(users - {user}, DropRecipes(recipes, gone), CascadeRatings(ratings, {user}, gone),
                       CascadeBookmarks(bookmarks, {user}, gone), nextId)
  {
  }

  /** The database behind the pg pool: four tables and the source of fresh ids. */
  class Database {
    var users: map<Id, User>
    var recipes: map<Id, Recipe>
    var ratings: map<Id, Rating>
    var bookmarks: set<Bookmark>
    var nextId: Id

    predicate Valid()
      reads this
    {
      Consistent(users, recipes, ratings, bookmarks, nextId)
    }

    /** The database right after the migration: every table empty. */
    constructor ()
      ensures Valid()
      ensures users == map[] && recipes == map[] && ratings == map[] && bookmarks == {}
    {
      users, recipes, ratings, bookmarks := map[], map[], map[], {};
      nextId := 0;
    }

    /** gen_random_uuid(): an id no row of any table has. */
    method FreshId() returns (id: Id)
      requires Valid()
      modifies this`nextId
      ensures Valid()
      ensures id == old(nextId) && nextId == id + 1
      ensures id !in users && id !in recipes && id !in ratings
    {
      id := nextId;
      nextId := nextId + 1;
    }

    /** DELETE FROM recipes WHERE id = $1: the recipe goes, and ON DELETE CASCADE takes
        every rating and bookmark that refers to it; nothing else changes. */
    method DeleteRecipe(id: Id)
      requires Valid() && id in recipes
      modifies this`recipes, this`ratings, this`bookmarks
      ensures Valid()
      ensures recipes == old(recipes) - {id}
      ensures ratings == CascadeRatings(old(ratings), {}, {id})
      ensures bookmarks == CascadeBookmarks(old(bookmarks), {}, {id})
      ensures forall r :: r in ratings.Values ==> r.recipeId != Some(id)
      ensures forall b :: b in bookmarks ==> b.recipeId != id
    {
      DeleteRecipesKeepsConsistent(users, recipes, ratings, bookmarks, nextId, {id});
      recipes := DropRecipes(recipes, {id});
      ratings := CascadeRatings(ratings, {}, {id});
      bookmarks := CascadeBookmarks(bookmarks, {}, {id});
    }

    /** DELETE FROM users WHERE id = $1 (no route issues it): ON DELETE CASCADE removes the
        user's recipes, the user's ratings and bookmarks, and those on the removed recipes. */
    method DeleteUser(id: Id)
      requires Valid() && id in users
      modifies this`users, this`recipes, this`ratings, this`bookmarks
      ensures Valid()
      ensures users == old(users) - {id}
      ensures recipes == DropRecipes(old(recipes), OwnedRecipes(old(recipes), id))
      ensures ratings == CascadeRatings(old(ratings), {id}, OwnedRecipes(old(recipes), id))
      ensures bookmarks == CascadeBookmarks(old(bookmarks), {id}, OwnedRecipes(old(recipes), id))
      ensures forall r :: r in recipes.Values ==> r.userId != Some(id)
      ensures forall r :: r in ratings.Values ==> r.userId != Some(id)
      ensures forall b :: b in bookmarks ==> b.userId != id
    {
      var gone := OwnedRecipes(recipes, id);
      DeleteUserKeepsConsistent(users, recipes, ratings, bookmarks, nextId, id);
      users := users - {id};
      recipes := DropRecipes(recipes, gone);
      ratings := CascadeRatings(ratings, {id}, gone);
      bookmarks := CascadeBookmarks(bookmarks, {id}, gone);
    }
  }
}
