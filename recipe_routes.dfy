/** The recipe routes: list and search, get by id, create, update and delete. None of them
    looks at who is calling; create takes user_id from the request body. */
module RecipeRoutes {
  import opened Common
  import opened Schema

  const NOT_FOUND: string := "Recipe not found"
  const SERVER_ERROR: string := "Internal server error"
  const DELETED: string := "Recipe deleted successfully"

  /** Case folding of one character (ASCII letters only). */
  function Lower(c: char): (l: char)
    ensures 'A' <= c <= 'Z' ==> l as int == c as int + 32
    ensures !('A' <= c <= 'Z') ==> l == c
  {
    if 'A' <= c <= 'Z' then (c as int + 32) as char else c
  }

  function LowerAll(s: string): (l: string)
    ensures |l| == |s| && forall i :: 0 <= i < |s| ==> l[i] == Lower(s[i])
  {
    seq(|s|, i requires 0 <= i < |s| => Lower(s[i]))
  }

  /** `text ILIKE '%' || pattern || '%'`: does the pattern occur somewhere in the text,
      ignoring case? */
  function ContainsIgnoreCase(text: string, pattern: string): bool
    decreases |text|
  {
    LowerAll(pattern) <= LowerAll(text) || (text != [] && ContainsIgnoreCase(text[1..], pattern))
  }

  /** The pattern matches the piece of text starting at `at`, ignoring case. */
  predicate MatchesAt(text: string, pattern: string, at: nat)
  {
    at + |pattern| <= |text| && LowerAll(text[at..at + |pattern|]) == LowerAll(pattern)
  }

  lemma LowerAllSlice(s: string, i: nat, j: nat)
    requires i <= j <= |s|
    ensures LowerAll(s[i..j]) == LowerAll(s)[i..j]
  {
  }

  /** A match in the text after its first character is a match one position later. */
  lemma MatchesAtShift(text: string, pattern: string, at: nat)
    requires text != []
    ensures MatchesAt(text[1..], pattern, at) <==> MatchesAt(text, pattern, at + 1)
  {
    if at + |pattern| <= |text[1..]| {
      assert text[1..][at..at + |pattern|] == text[at + 1..at + 1 + |pattern|];
    }
  }

  /** Where the search succeeds, the pattern occurs at some position, ignoring case. */
  lemma {:induction false} FoundAtSomePosition(text: string, pattern: string) returns (at: nat)
    requires ContainsIgnoreCase(text, pattern)
    ensures MatchesAt(text, pattern, at)
    decreases |text|
  {
    var n := |pattern|;
    if LowerAll(pattern) <= LowerAll(text) {
      LowerAllSlice(text, 0, n);
      at := 0;
    } else {
      var later := FoundAtSomePosition(text[1..], pattern);
      MatchesAtShift(text, pattern, later);
      at := later + 1;
    }
  }

  /** Where the pattern occurs at some position, ignoring case, the search succeeds. */
  lemma {:induction false} FoundFromPosition(text: string, pattern: string, at: nat)
    requires MatchesAt(text, pattern, at)
    ensures ContainsIgnoreCase(text, pattern)
    decreases at
  {
    var n := |pattern|;
    if at == 0 {
      LowerAllSlice(text, 0, n);
    } else {
      MatchesAtShift(text, pattern, at - 1);
      FoundFromPosition(text[1..], pattern, at - 1);
    }
  }

  /** The search finds a pattern exactly when it occurs at some position, ignoring case. */
  lemma ContainsIgnoreCaseIff(text: string, pattern: string)
    ensures ContainsIgnoreCase(text, pattern) <==> exists at: nat :: MatchesAt(text, pattern, at)
  {
    if ContainsIgnoreCase(text, pattern) {
      var at := FoundAtSomePosition(text, pattern);
    }
    if exists at: nat :: MatchesAt(text, pattern, at) {
      var at: nat :| MatchesAt(text, pattern, at);
      FoundFromPosition(text, pattern, at);
    }
  }

  /** The search matches whatever case either side is written in. */
  lemma {:induction false} ContainsIgnoreCaseFolds(text: string, pattern: string)
    ensures ContainsIgnoreCase(text, pattern) == ContainsIgnoreCase(LowerAll(text), LowerAll(pattern))
    decreases |text|
  {
    assert LowerAll(LowerAll(pattern)) == LowerAll(pattern);
    assert LowerAll(LowerAll(text)) == LowerAll(text);
    if text != [] {
      ContainsIgnoreCaseFolds(text[1..], pattern);
      assert LowerAll(text)[1..] == LowerAll(text[1..]);
    }
  }

  /** A piece of the text, verbatim, is always found. */
  lemma SubstringIsFound(text: string, pattern: string, at: nat)
    requires at + |pattern| <= |text| && text[at..at + |pattern|] == pattern
    ensures ContainsIgnoreCase(text, pattern)
  {
    FoundFromPosition(text, pattern, at);
  }

  /** WHERE title ILIKE $1 OR content ILIKE $1, with $1 = '%' || search || '%'. */
  predicate MatchesSearch(r: Recipe, search: string)
  {
    ContainsIgnoreCase(r.title, search) || ContainsIgnoreCase(r.content, search)
  }

  /** GET /?search=...: every recipe when search is absent or empty, otherwise exactly the
      recipes whose title or content contains it, ignoring case. */
  function ListRecipes(db: Database, search: Option<string>): (r: Reply<set<Recipe>>)
    reads db
    ensures r.Sent? && r.status == 200
    ensures !Truthy(search) ==> r.body == db.recipes.Values
    ensures Truthy(search) ==> forall x ::
      x in r.body <==> x in db.recipes.Values && (ContainsIgnoreCase(x.title, search.value) || ContainsIgnoreCase(x.content, search.value))
  {
    if Truthy(search) then
      Sent(200, set id | id in db.recipes && MatchesSearch(db.recipes[id], search.value) :: db.recipes[id])
    else
      Sent(200, set id | id in db.recipes :: db.recipes[id])
  }

  /** A recipe whose title holds the search word verbatim is among the search results. */
  lemma SearchFindsTitleWord(db: Database, id: Id, at: nat, word: string)
    requires id in db.recipes && word != ""
    requires at + |word| <= |db.recipes[id].title| && db.recipes[id].title[at..at + |word|] == word
    ensures db.recipes[id] in ListRecipes(db, Some(word)).body
  {
    SubstringIsFound(db.recipes[id].title, word, at);
  }

  /** GET /:id: the row with that id, or 404. */
  function GetRecipe(db: Database, id: Id): (r: Reply<Recipe>)
    reads db
    requires db.Valid()
    ensures r.Sent? <==> exists x :: x in db.recipes.Values && x.id == id
    ensures r.Sent? ==> r.status == 200 && r.body in db.recipes.Values && r.body.id == id
    ensures !r.Sent? ==> r == Rejected(404, NOT_FOUND)
  {
    if id in db.recipes then
      assert db.recipes[id] in db.recipes.Values;
      Sent(200, db.recipes[id])
    else
      Rejected(404, NOT_FOUND)
  }

  /** POST /: inserts one row with title, content and user_id from the body and answers 201
      with it. A missing title or content, or a user_id that names no user, makes the
      INSERT fail: 500 and nothing changes. */
  method CreateRecipe(db: Database, title: Option<string>, content: Option<string>, userId: Option<Id>,
                      now: Time) returns (r: Reply<Recipe>)
    requires db.Valid()
    modifies db
    ensures db.Valid()
    ensures db.users == old(db.users) && db.ratings == old(db.ratings) && db.bookmarks == old(db.bookmarks)
    ensures title.None? || content.None? || !References(userId, old(db.users)) ==>
      r == Rejected(500, SERVER_ERROR) && db.recipes == old(db.recipes)
    ensures title.Some? && content.Some? && References(userId, old(db.users)) ==>
      && r == Sent(201, Recipe(old(db.nextId), title.value, content.value, userId, now, now))
      && r.body.id !in old(db.recipes)
      && db.recipes == old(db.recipes)[r.body.id := r.body]
    ensures r.Sent? ==> GetRecipe(db, r.body.id) == Sent(200, r.body)
  {
    if title.None? || content.None? {
      return Rejected(500, SERVER_ERROR);
    }
    if userId.Some? && userId.value !in db.users {
      return Rejected(500, SERVER_ERROR);
    }
    var id := db.FreshId();
    var recipe := Recipe(id, title.value, content.value, userId, now, now);
    db.recipes := db.recipes[id := recipe];
    r := Sent(201, recipe);
  }

  /** PUT /:id: sets title, content and updated_at of the row with that id and answers with
      the new row; id, user_id, created_at and every other row stay as they were. 404 when
      no row has the id; 500 when title or content is missing. */
  method UpdateRecipe(db: Database, id: Id, title: Option<string>, content: Option<string>, now: Time)
    returns (r: Reply<Recipe>)
    requires db.Valid()
    modifies db
    ensures db.Valid()
    ensures db.users == old(db.users) && db.ratings == old(db.ratings) && db.bookmarks == old(db.bookmarks)
    ensures db.nextId == old(db.nextId)
    ensures id !in old(db.recipes) ==> r == Rejected(404, NOT_FOUND) && db.recipes == old(db.recipes)
    ensures id in old(db.recipes) && (title.None? || content.None?) ==>
      r == Rejected(500, SERVER_ERROR) && db.recipes == old(db.recipes)
    ensures id in old(db.recipes) && title.Some? && content.Some? ==>
      var before := old(db.recipes)[id];
      && r == Sent(200, Recipe(id, title.value, content.value, before.userId, before.createdAt, now))
      && db.recipes == old(db.recipes)[id := r.body]
  {
    if id !in db.recipes {
      return Rejected(404, NOT_FOUND);
    }
    if title.None? || content.None? {
      return Rejected(500, SERVER_ERROR);
    }
    var updated := db.recipes[id].(title := title.value, content := content.value, updatedAt := now);
    db.recipes := db.recipes[id := updated];
    r := Sent(200, updated);
  }

  /** DELETE /:id: removes the recipe, and with it (ON DELETE CASCADE) its ratings and
      bookmarks; afterwards GET /:id answers 404. 404 when no row has the id. */
  method DeleteRecipe(db: Database, id: Id) returns (r: Reply<string>)
    requires db.Valid()
    modifies db
    ensures db.Valid()
    ensures db.users == old(db.users) && db.nextId == old(db.nextId)
    ensures id !in old(db.recipes) ==> r == Rejected(404, NOT_FOUND) && unchanged(db)
    ensures id in old(db.recipes) ==>
      && r == Sent(200, DELETED)
      && db.recipes == old(db.recipes) - {id}
      && db.ratings == CascadeRatings(old(db.ratings), {}, {id})
      && db.bookmarks == CascadeBookmarks(old(db.bookmarks), {}, {id})
    ensures GetRecipe(db, id) == Rejected(404, NOT_FOUND)
  {
    if id !in db.recipes {
      return Rejected(404, NOT_FOUND);
    }
    db.DeleteRecipe(id);
    r := Sent(200, DELETED);
  }
}
