# Whiskr request logic, modelled in Dafny

Whiskr is a recipe-sharing web application. Its backend is a set of Express route handlers over
a Postgres database, with bcrypt for passwords and JSON Web Tokens for sessions. Its frontend
keeps the session in the browser's `localStorage`. This project models the decisions those
handlers make: which status they answer with and what each one changes in which table. It also
models the bearer-token middleware and the frontend's session helpers. The database becomes an
in-memory `Database` object whose schema constraints are its invariant.

Modules, one per source file:

- `Common` (`common.dfy`): optional values (`null`/`undefined`), JavaScript truthiness of strings, row ids, timestamps, and the shape of a handler's reply.
- `Crypto` (`crypto.dfy`): bcrypt and jsonwebtoken as uninterpreted functions.
  - They are passed as values, and the laws the code relies on are the predicates `BcryptSound` and `JwtSound`.
  - `BcryptSound`: a password matches its own hash.
  - `JwtSound`: a signed token verifies to its payload and is a space-free word.
- `Schema` (`schema.dfy`, from `backend/migrate.js`): the four tables, their constraints as `Database.Valid()`, and the `ON DELETE CASCADE` deletions.
- `AuthGate` (`auth_gate.dfy`, from `backend/middleware/auth.js`): `split(' ')` as JavaScript defines it, the token in field 1, and the 401 / 403 / `next()` decision as a method over request, response and `next` objects.
- `UserRoutes`, `RecipeRoutes`, `RatingRoutes`, `BookmarkRoutes`: one handler per route.
  - Read-only routes are functions that read the database.
  - Routes that write are methods with `modifies db`.
  - Each such method states the new content of every table and keeps `Valid()`.
- `SessionAuth` (`session_auth.dfy`, from `frontend/src/utils/auth.js`): `storeUserAuth`, `getUserAuth`, `clearUserAuth` and `isAuthenticated` over a `LocalStorage` object.

How the model relates to the code:

- The handlers do not check ownership.
  - Recipe creation takes `user_id` from the request body.
  - Rating and recipe update and delete take no caller identity at all.
  - The model reproduces this: no handler has an identity parameter.
- Login answers 400, not 401, for bad credentials, as the code does.
- The middleware is not applied to any route, and the rating router is not mounted. The model keeps the gate and the handlers separate.
  - `AuthGate.IssuedTokenAuthenticates` only says that a token the user routes issue would pass the gate.
- Database errors differ by router.
  - In the recipe routes they are caught and answered with 500 "Internal server error" (`Reply.Rejected`).
  - In the rating and bookmark routes they are handed to `next(err)` (`Reply.Forwarded`, carrying the violated constraint).
- Postgres refuses a statement in a fixed order. First it binds the parameters: a rating value outside the `INTEGER` (int4) range fails there, even for an UPDATE that matches no row. Then come NOT NULL, CHECK, uniqueness and foreign keys, in that order. An UPDATE that matches no row checks no constraint. The handlers' error cases follow that order.
- Identifiers are natural numbers handed out by a counter (`Database.FreshId`) in place of `gen_random_uuid()`.
- The time of `now()` is a parameter of each handler that writes a timestamp.
- bcrypt's random salt is a parameter of `Register`.

## Model

| member | source | states |
|---|---|---|
| `Crypto.IssueToken` | backend/routes/userRoutes.js:94-98 | the token signed over `{id, email}` with expiry `7d` verifies back to exactly that payload and is a non-empty, space-free word |
| `Schema.CascadeRatings` | backend/migrate.js:25-26 | a rating survives a deletion exactly when neither its user nor its recipe was deleted, and survivors are unchanged |
| `Schema.CascadeBookmarks` | backend/migrate.js:31-32 | a bookmark survives exactly when neither its user nor its recipe was deleted |
| `Schema.DeleteRecipesKeepsConsistent` | backend/migrate.js:22-33 | deleting recipes together with the ratings and bookmarks that refer to them leaves every constraint satisfied |
| `Schema.DeleteUserKeepsConsistent` | backend/migrate.js:13-33 | deleting a user, the recipes they own and everything referring to either leaves no dangling reference and every constraint satisfied |
| `Schema.Database.constructor` | backend/migrate.js:5-34 | the freshly migrated database has four empty tables and satisfies the schema |
| `Schema.Database.FreshId` | backend/migrate.js:6 | a new id belongs to no user, recipe or rating row |
| `Schema.Database.DeleteRecipe` | backend/migrate.js:26-32 | deleting a recipe removes exactly it, every rating and every bookmark referring to it; no rating or bookmark refers to it afterwards |
| `Schema.Database.DeleteUser` | backend/migrate.js:17-32 | deleting a user removes exactly that user, their recipes, their ratings and bookmarks and those on their recipes; nothing refers to the user afterwards |
| `AuthGate.Split` | backend/middleware/auth.js:7 | splitting gives at least one field, and no field contains the separator |
| `AuthGate.JoinSplit` | backend/middleware/auth.js:7 | joining the fields of a split with the separator gives back the original header |
| `AuthGate.SplitJoin` | backend/middleware/auth.js:7 | splitting a join of separator-free fields gives back those fields, so the split is the unique such decomposition |
| `AuthGate.TokenOf` | backend/middleware/auth.js:6-8 | an extracted token is non-empty, holds no space and is exactly field 1 of the header split on single spaces |
| `AuthGate.TokenOfShape` | backend/middleware/auth.js:7-8 | a header `<scheme> <token><rest>` yields exactly `<token>` whatever the scheme word is, when `<rest>` is empty or starts with a space |
| `AuthGate.TokenOfCharacterized` | backend/middleware/auth.js:7-8 | every extracted token sits in its header in that `<scheme> <token><rest>` shape |
| `AuthGate.BareSchemeHasNoToken` | backend/middleware/auth.js:7-10 | `Bearer` alone and `Bearer ` (any space-free scheme) carry no token |
| `AuthGate.Decide` | backend/middleware/auth.js:4-18 | the outcome is 401 exactly when no token is found, 403 exactly when the verifier rejects the token, and otherwise the payload the verifier returned |
| `AuthGate.IssuedTokenAuthenticates` | backend/middleware/auth.js:11-16 | a token issued by register or login, sent as `Bearer <token>`, passes the gate with the payload it was issued for |
| `AuthGate.AuthenticateToken` | backend/middleware/auth.js:4-18 | 401 "Missing token" or 403 "Invalid token" without setting `req.user` or calling `next`; otherwise `req.user` is the payload, `next` is called once and no status is written |
| `UserRoutes.Register` | backend/routes/userRoutes.js:9-62 | missing fields give 400 and a taken email gives 400 "Email already registered", both with the users table unchanged; otherwise exactly one user is added, storing the hash of the password, and the reply is 201 with the new id, email and a `7d` token; with a sound hasher the same credentials then log in |
| `UserRoutes.Login` | backend/routes/userRoutes.js:65-114 | missing fields give 400; an unknown email and a wrong password both give the same 400 "Invalid email or password"; a match gives 200 with that user's id and email and a `7d` token over them; the table is only read |
| `UserRoutes.RegisterThenLogin` | backend/tests/test_users.py:16-34 | registering a new email and logging in with the same credentials answers 201 then 200 for the same user |
| `RecipeRoutes.FoundAtSomePosition` | backend/routes/recipeRoutes.js:12-15 | where the case-insensitive search succeeds, the pattern occurs, ignoring case, at some position of the text |
| `RecipeRoutes.FoundFromPosition` | backend/routes/recipeRoutes.js:12-15 | where the pattern occurs at some position, ignoring case, the search succeeds |
| `RecipeRoutes.ContainsIgnoreCaseIff` | backend/routes/recipeRoutes.js:12-15 | the search succeeds if and only if the pattern occurs somewhere in the text, ignoring case |
| `RecipeRoutes.ContainsIgnoreCaseFolds` | backend/routes/recipeRoutes.js:13 | the search gives the same answer when text and pattern are both lower-cased first |
| `RecipeRoutes.SubstringIsFound` | backend/routes/recipeRoutes.js:13-14 | a verbatim piece of the text is always found |
| `RecipeRoutes.ListRecipes` | backend/routes/recipeRoutes.js:7-22 | 200 with every recipe when `search` is absent or empty; otherwise with exactly the recipes whose title or content contains it, ignoring case |
| `RecipeRoutes.SearchFindsTitleWord` | backend/tests/test_recipes.py:74-94 | a recipe whose title holds the search word is among the search results |
| `RecipeRoutes.GetRecipe` | backend/routes/recipeRoutes.js:25-37 | 200 with the row of that id exactly when one exists, otherwise 404 "Recipe not found" |
| `RecipeRoutes.CreateRecipe` | backend/routes/recipeRoutes.js:40-52 | with title, content and an existing or null `user_id` from the body, exactly one new row is inserted and returned with 201, and getting its id returns it; otherwise 500 and nothing changes |
| `RecipeRoutes.UpdateRecipe` | backend/routes/recipeRoutes.js:55-71 | 404 with nothing changed when no row has the id; otherwise only that row's title, content and `updated_at` change (500 if title or content is missing) |
| `RecipeRoutes.DeleteRecipe` | backend/routes/recipeRoutes.js:74-86 | 404 with nothing changed when absent; otherwise the recipe and its ratings and bookmarks are removed, and a later get of the id answers 404 |
| `RatingRoutes.InsertError` | backend/migrate.js:22-28 | a rating row is accepted exactly when its value is null or in 1..5 and its user and recipe are null or exist; a value outside the int4 range is refused while binding, before the CHECK, which is reported before the foreign keys |
| `RatingRoutes.CreateRating` | backend/routes/ratingRoutes.js:7-18 | an acceptable rating is inserted with the body's value, `user_id` and `recipe_id` and returned with 201; otherwise the error goes to `next` (an int4 overflow, the CHECK or a foreign key, in that order) and nothing changes |
| `RatingRoutes.UpdateRating` | backend/routes/ratingRoutes.js:21-35 | a value outside the int4 range goes to `next` before any lookup, even for an absent id; otherwise 404 when absent; otherwise only that rating's value and `created_at` change, or the CHECK rejects a value outside 1..5 |
| `RatingRoutes.DeleteRating` | backend/routes/ratingRoutes.js:39-50 | removes exactly the rating with that id, or answers 404 with nothing changed |
| `RatingRoutes.ListRatings` | backend/routes/ratingRoutes.js:53-67 | 200 with exactly the ratings of the given recipe, or every rating without the filter |
| `BookmarkRoutes.AddBookmark` | backend/routes/bookmarkRoutes.js:7-19 | adds exactly the pair and answers 201; a missing id, a pair already present or an unknown user or recipe goes to `next` with nothing changed |
| `BookmarkRoutes.RemoveBookmark` | backend/routes/bookmarkRoutes.js:22-35 | removes exactly the bookmark matching both ids, leaving other users' bookmarks of the recipe in place, or answers 404 with nothing changed |
| `BookmarkRoutes.AddThenRemove` | backend/routes/bookmarkRoutes.js:9-28 | when adding a pair succeeds, removing it again succeeds and restores the bookmarks |
| `BookmarkRoutes.BookmarksOfUser` | backend/routes/bookmarkRoutes.js:39-53 | 200 with exactly the user's bookmarks whose recipe exists, each with that recipe's title and content |
| `BookmarkRoutes.EveryBookmarkListed` | backend/routes/bookmarkRoutes.js:43-50 | in a consistent database every bookmark of the user appears in the listing |
| `SessionAuth.StoreUserAuth` | frontend/src/utils/auth.js:4-46 | a falsy token, or no user id given or decodable from the token, returns false with the store unchanged; otherwise the token, the user id and the email (or "") are written and it returns true, after which the session is signed in |
| `SessionAuth.GetUserAuth` | frontend/src/utils/auth.js:49-66 | returns each of the three stored values, null for an absent key, and only reads the store |
| `SessionAuth.ClearUserAuth` | frontend/src/utils/auth.js:69-79 | removes exactly the three keys, returns true, and the session is signed out |
| `SessionAuth.IsAuthenticated` | frontend/src/utils/auth.js:82-84 | true exactly when the stored token and user id are both present and non-empty |
| `SessionAuth.LogoutThenLogin` | frontend/src/utils/auth.js:4-84 | after clearing, storing a non-empty token and user id leaves the session authenticated |

## Left out

- bcrypt and jsonwebtoken themselves are not modelled: no salting scheme, signature arithmetic or secret handling. The cost factor `SALT_ROUNDS` is passed to the hash, but no law depends on it. They are function values, and their laws are required as `BcryptSound` and `JwtSound`.
- Token expiry is not modelled, because it needs a clock inside `jwt.verify`. The verifier is a plain function from token to payload.
- The database connection and SQL execution are not modelled, and neither are the errors of a failed connection. Tables are maps and a set.
- Row order in query results is not modelled, because no query has an `ORDER BY`. Listings are sets of rows.
- `ILIKE` wildcards are not modelled: `%` and `_` inside the search term are treated as ordinary characters.
- Case folding covers ASCII letters only, because the database's locale rules are not available.
- Ids are naturals, so malformed UUID parameters are not modelled (in the code they make the query fail with 500).
- Path ids (`/api/recipes/:id`, `/api/ratings/:id`) are plain ids. Only `search`, the `recipe_id` filter and the ids in request bodies (a recipe's or rating's `user_id`, a rating's `recipe_id`, both bookmark ids) are optional ids. An empty query string counts as absent.
- `RatingRoutes.InsertError`: a rating value that is not an integer (a string, a fraction) is not modelled. The value is an optional integer.
- `UserRoutes.Register`: signs the token twice, once into an unused variable and once for the reply. Both calls give the same value here, so the model signs once. The 500 "Registration failed" path is not modelled. Email and password are typed as strings, so a truthy non-string body value (such as a numeric password, which `bcrypt.hash` rejects) is outside the model. A database failure, including a concurrent insert of the same email, is outside it too.
- `UserRoutes.Login`: the 500 "Login failed" path is not modelled. It arises when `bcrypt.compare` rejects a truthy non-string password, which the string-typed parameters exclude, or when the database fails.
- `SessionAuth.StoreUserAuth`: the JWT payload decoding (`split('.')`, `atob`, `JSON.parse`) is an abstract `decodeId` function. `None` means decoding threw or found no `id`. A numeric `id`, which would make the final `===` comparison false, is not modelled.
- `SessionAuth.StoreUserAuth`: storage exceptions (quota, disabled storage) are not modelled. They would return false, and `getUserAuth` would return all-null values.
- Logging (`console.*`), `async`/`await`, CORS and the Express wiring are not modelled: `backend/index.js`, `backend/app.js` and the 500 error handler that receives `next(err)`.
- The frontend API wrappers and pages are not modelled.
- Deleting a user has no route. `Schema.Database.DeleteUser` models the schema's cascade for completeness.
