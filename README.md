# Recipe finder: a verified model of the server's request logic and the client's page state

The system is a small recipe web application:

- **Server.** An Express server (`server.js`) registers and logs in users, using bcrypt password hashes and one-hour JWTs. It searches recipes through an external provider, or through a fixed list of 27 mock recipes when no API key is set. It serves recipe details through a 24-hour cache table and lets logged-in users post and list star-rated reviews.
- **Client.** A browser script (`app.js`) renders search results, recipe details and reviews. It keeps the session in localStorage and drives a diet filter and a five-star rating widget.

This project models both halves in Dafny. The three database tables are fields of the `Api.Server` class:

- `users` and `reviews` are sequences with auto-increment counters;
- `recipe_cache` is a map from recipe id to a row holding the document and its cache time.

Three handlers change these tables, so they are methods of the class: register, posting a review and the recipe-detail cache path. Each method states its whole new state. Login, search, listing reviews and health are functions of the tables.

bcrypt and JWT are records of functions (`Credentials.PasswordHasher`, `Credentials.TokenCodec`). Two ghost predicates state the only assumptions made about them. `Credentials.HasherSound` says that a password matches any hash made from it, whatever the salt. `Credentials.CodecSound` says:

- a signed token decodes to its claims;
- tokens contain no space;
- an empty token does not decode.

Lemmas and scenarios that rely on one of these name it in their requires.

A token issued at time `t` carries `exp = t + 3600` seconds. It verifies while the current second is below `exp`.

Everything outside the model is a parameter of the call:

- the clock (`nowMs`, in milliseconds);
- the bcrypt salt;
- each database failure (`queryFails`, `insertFails`, `readFails`, `writeFails`);
- the provider's reply (`Fetch<T>`).

A ghost log `fetches` records which recipe ids the provider's detail endpoint was asked for. This lets contracts say when no provider call happens.

On the client, the rendering code becomes pure functions from response bodies to view values, such as `Client.RenderReviews` and `Client.RenderDetail`. The page globals and localStorage become fields of the `Client.App` class. The star icons' solid/regular classes are an array the star-selection loop updates in place.

Modules:

- `Wrappers`: `Option`, `Result`.
- `Http`: JavaScript truthiness and `||` defaults, `split(' ')` and the Bearer token.
- `Credentials`: hashing, token issue and verification.
- `Recipes`: the fallback list and the mock detail documents.
- `RecipeCache`: freshness, lookup and upsert.
- `Store`: the users and reviews tables, the login lookup and the reviews query.
- `Api`: the route handlers and the `Server` class.
- `Client`: the browser script.
- `Scenarios`: request sequences that run across modules.

## Model

| member | source | states |
|---|---|---|
| Http.BearerToken | server.js:354 | `split(' ')[1]` is defined exactly when the header contains a space, has no space itself, and is the second piece of `Http.Split`, the text between the first and second space |
| Http.JoinSplit | server.js:354 | joining the pieces of `split(' ')` with single spaces gives back the header |
| Http.SplitJoin | server.js:354 | splitting space-joined, space-free pieces gives back the same pieces |
| Http.BearerTokenOfBearerHeader | server.js:354 | the token extracted from `"Bearer " + token` is that token, for any space-free token |
| Credentials.Verify | server.js:356-361 | a missing or undecodable token, or one whose expiry second has been reached, is rejected; otherwise its claims are returned |
| Credentials.IssuedTokenVerifiesUntilExpiry | server.js:55 | a token issued at `t` verifies at `now` iff `now`'s second is below `t`'s second + 3600, and it carries the user's id and username |
| Credentials.AcceptedAfter59Minutes | server.js:55 | a token is still accepted 59 minutes after issue |
| Credentials.RejectedFromOneHour | server.js:55 | a token is rejected from one hour after issue onwards |
| Recipes.DigitsRoundTrip | server.js:285 | the decimal digits of a natural number read back to that number |
| Recipes.FallbackListShape | server.js:70-101 | the fallback list has 27 items, starts with 101 "Pasta Carbonara (Mock)" and ends with 127 "Vegetable Lasagna (Mock)"; every id is in 101..127 and each id in that range is at one known position |
| Recipes.FallbackIdsDistinct | server.js:72-100 | no id appears twice in the fallback list |
| Recipes.SpecificMock | server.js:147-279 | each of the six featured documents carries its id, an image, a summary, its own title ("Pasta Carbonara (Mock)", "Chicken Biryani (Mock)", "Chocolate Lava Cake (Mock)", "Butter Chicken (Mock)", "Paneer Tikka Masala (Mock)", "Masala Dosa (Mock)") and its exact ingredient and step counts (6/5, 6/5, 5/5, 5/4, 5/4, 5/4) |
| Recipes.MockDetail | server.js:144-306 | featured ids get exactly their `SpecificMock` document; other ids in 106..127 get the generic one with 3 ingredients, 3 steps, an image and a summary; every other id gets 1 ingredient and 1 step, no image and no summary, titled `Mock Recipe ${id}` |
| Recipes.FallbackTitlesAgreeOnlyForFeatured | server.js:282-306 | a fallback search item and its detail document have the same title exactly when the id is one of the six featured ones |
| RecipeCache.Lookup | server.js:128-138 | a row is served iff it exists and `now - cachedAt < 24h` (strict), and then it is the stored document |
| RecipeCache.Upsert | server.js:316-320 | the upserted id now maps to the new data stamped with `now`; every other row is unchanged |
| RecipeCache.LookupAfterUpsert | server.js:134 | right after an upsert the row is fresh and is served |
| RecipeCache.LookupOtherAfterUpsert | server.js:317-320 | an upsert does not change what any other id's lookup returns |
| RecipeCache.UpsertIdempotent | server.js:318 | upserting the same data twice at the same time equals upserting once |
| RecipeCache.StaleStaysStale | server.js:134 | once a row is stale it stays stale at every later time |
| Store.InsertKeepsUsersValid | server.js:31-34 | appending a user under the next id, with a username and email not taken, keeps ids below the counter and ids, usernames and emails unique |
| Store.InsertKeepsReviewIdsValid | server.js:366-370 | appending a review under the next id keeps review ids below the counter and distinct |
| Store.FindLogin | server.js:48-51 | the lookup returns the first row whose email or username equals the identifier, and none iff no row matches |
| Store.FindLoginFindsOwner | server.js:48-51 | in a table with unique usernames and emails, a user's own email finds that user iff no earlier row has that text as its username, and the user's own username finds that user iff no earlier row has that text as its email |
| Store.EarlierUsernameShadowsEmail | server.js:48-51 | an earlier account whose username equals a later account's email is found instead of the later account |
| Store.JoinedFor | server.js:337 | every row is a review of the recipe from the table, paired with its existing author's username |
| Store.JoinedForAppend | server.js:337 | the join of an empty table is empty, and appending a review appends its row to the join exactly when it is for the recipe and its author exists; so the join holds each matching review once, in table order |
| Store.JoinedForComplete | server.js:337 | every review of the recipe whose author exists appears in the join |
| Store.SortNewestFirst | server.js:338 | the result is ordered by creation time, newest first, and is a permutation of the input |
| Store.ReviewsForMembership | server.js:337-339 | a row is listed iff it is a review of that recipe paired with its existing author's username |
| Store.NewestReviewListedFirst | server.js:337-339 | a review of the recipe by an existing author, strictly newer than every other review of that recipe, is listed first with its author's username |
| Api.Login | server.js:45-61 | 200 iff the query works and the first row matching email or username has the given password; the body holds a token issued for that row's id and username and its public fields; 500 on a query failure or a missing password for a matched row; otherwise 401 "Invalid credentials" |
| Api.LoginFailuresIndistinguishable | server.js:49-53 | an unknown identifier and a wrong password for a known one give the identical 401 response |
| Api.AuthorizeReview | server.js:351-364 | missing header gives 401 "Unauthorized", then an unverifiable token gives 401 "Invalid token", then a falsy recipeId or rating gives 400; success iff all pass, yielding the token's user id |
| Api.AuthCheckedBeforeFields | server.js:351-364 | a request with a bad header and no body fields is refused with 401, not 400 |
| Api.Search | server.js:65-120 | fallback mode returns the 27 mock items with no provider call; otherwise it forwards `query`, `diet`, `cuisine` and `number: 9` and returns the provider's data, or 500 "External API Error" on failure; `type` is never read |
| Api.FallbackSearchIgnoresFilters | server.js:66-101 | in fallback mode every choice of q, diet, cuisine and type gives the same 27-item answer |
| Api.ListReviews | server.js:334-346 | on success 200 with the recipe's joined reviews, newest first, as a permutation of the join; 500 when the query fails |
| Api.Health | server.js:379-387 | 200 iff the database answers; otherwise 500 with the database's message |
| Api.Server.constructor | server.js:11-19 | the server starts over a freshly initialized database (empty tables, both counters at 1), an empty cache and no provider calls, with the given key, hasher and codec |
| Api.Server.Register | server.js:23-43 | missing fields give 400 with no change; a taken username or email gives 400 with no change; an insert failure gives 500 with no change; otherwise exactly one user is appended under the next id with the password hash, preferences defaulting to `{}` and skill to 'intermediate', and 201 returns that id |
| Api.Server.PostReview | server.js:349-376 | any authorization failure is returned with no change; an insert failure gives 500 with no change; otherwise exactly one review is appended under the token's user id and 201 "Review added" is returned |
| Api.Server.GetRecipe | server.js:123-330 | a fresh cached row is served with no change; otherwise fallback mode returns the mock document with no cache write and no provider call; live mode makes one provider call, upserts and returns the fetched document (a failed write still returns it), or returns 500 with the cache unchanged |
| Client.Stars | app.js:355 | for a rating 0..5, exactly five characters, solid at positions below the rating and hollow after; outside 0..5 the repeat throws |
| Client.StarsCountRating | app.js:355 | a rating r in 1..5 shows r solid and 5 - r hollow stars |
| Client.RenderReviews | app.js:346-360 | a missing or empty list gives "No reviews yet"; a rating outside 0..5 makes rendering fail; otherwise one item per row, in order, with username, stars and comment |
| Client.RenderReviewItems | app.js:351-359 | rendering fails iff some rating is outside 0..5; otherwise one item per row in order |
| Client.ReviewsPanel | app.js:307-314 | a review list body is rendered; an error body makes rendering throw and shows "Error loading reviews." |
| Client.CardOf | app.js:223-233 | a card shows the recipe's id and title, `readyInMinutes` or 30 when falsy, and `servings` or 2 when falsy |
| Client.RenderRecipes | app.js:217-234 | a missing or empty list gives "No recipes found."; otherwise one card per recipe, in order |
| Client.ResultsOf | app.js:207-210 | a results body yields exactly its `results` list; any other body yields none, so an error body renders as no recipes |
| Client.FallbackSearchRendersAllCards | app.js:217-234 | the fallback search renders 27 cards, each with its own mock minutes and servings, the first "Pasta Carbonara (Mock)" 30m for 2 |
| Client.SummaryLine | app.js:332 | an absent or empty summary gives ""; otherwise its first 150 characters followed by "..." |
| Client.ShortSummaryShownWhole | app.js:332 | a summary of at most 150 characters is shown whole, followed by "..." |
| Client.RenderDetail | app.js:321-332 | title as given (or "undefined"), image or the placeholder, the summary line, ingredients whenever present and steps only from the first instruction block, with the placeholder items otherwise |
| Client.DocOf | app.js:318-319 | a detail body yields its document; any other body yields a document with no fields |
| Client.ErrorBodyRendersPlaceholders | app.js:321-332 | an error response renders "undefined" with the placeholder image and both placeholder lists |
| Client.MockDetailRendering | app.js:321-332 | every mock document renders its own title, ingredients and steps; the echo document for an unknown id shows the placeholder image and no summary |
| Client.ToggleTwiceRestores | app.js:84-88 | clicking the same tag twice restores the diet filter iff it was empty or already that tag |
| Client.SearchDiet | app.js:197 | the diet a search sends is the value of the first active tag in page order, and "" when no tag is active |
| Client.FilterStateDivergesFromSentDiet | app.js:84-88 | from no active tag, clicking tag `i` and then a different tag `j` leaves `currentFilters.diet` at tag `j`'s value while the search sends the value of whichever of the two comes first on the page; the two differ exactly when `i` comes before `j` |
| Client.App.Load | app.js:16-31 | the saved user is restored iff both a token and a user are stored (app.js:23-31), with an empty diet (app.js:16-19) and no open recipe (`currentRecipeId = null`, app.js:250); no active tag, an empty rating and no solid star are assumed from the page markup, which is not part of this model |
| Client.App.ApplyLogin | app.js:118-121 | a successful login stores the token and the user and makes the user current; a failed one changes nothing |
| Client.App.ClickAuthButton | app.js:41-51 | logged in, logout removes both keys and clears the current user; logged out, it only opens the login dialog |
| Client.App.ClickFilterTag | app.js:79-88 | the clicked tag's active class flips and the diet filter toggles to or from its value |
| Client.App.OpenRecipe | app.js:278-295 | the recipe id is recorded and the review form is shown iff a user is logged in |
| Client.App.ChooseStar | app.js:262-275 | the rating becomes v and exactly the stars whose value is at most v are solid |
| Client.App.Submission | app.js:362-378 | nothing is sent without a rating; otherwise the header is "Bearer " plus the stored token (or "null"), with the open recipe, the rating and the comment |
| Scenarios.BearerTokenAuthorizesUntilExpiry | server.js:351-361 | a login token sent as "Bearer token" authorizes a review for its user until the hour is up, and not after |
| Scenarios.TokenAcceptedAt59RejectedAt61 | server.js:55 | the same token is accepted at 59 minutes and rejected at 61 |
| Scenarios.RegisterTwiceThenLogin | server.js:23-61 | for a sound hasher and an email no stored username equals: registering, then registering another username with the same email, gives 201 then 400; logging in by that email with the first password returns the first account |
| Scenarios.DetailCachedWithinADay | server.js:128-141 | with the cache read and write both succeeding, two detail requests within 24 hours make at most one provider call; after a miss, both return the document fetched first |
| Scenarios.DetailRefetchedAfterADay | server.js:134 | 24 hours or more after a fetch the same id goes to the provider again and the new reply is served |
| Scenarios.FallbackNeverCaches | server.js:144-307 | a detail miss in fallback mode serves the mock document and leaves the cache and the provider log unchanged |
| Scenarios.PostedReviewListedFirst | server.js:334-376 | a review posted by an existing user later than every stored review is returned first by the recipe's review list, with that user's id and username, its rating and its comment |
| Scenarios.LoginThenReview | app.js:372-380 | a client that logs in, opens a recipe and picks five stars sends a review that is authorized under its own user id within the token's hour and refused as "Invalid token" after |

## Left out

- db.js, init-db.js, check-db.js and test-api.js: connection pooling, schema bootstrap, console dumps and an ad-hoc HTTP client. These are input and output with no logic of their own.
- bcrypt and JWT internals: modelled as functions constrained only by the soundness predicates above. The JWT secret and `jsonwebtoken`'s clock-skew and algorithm options are inside the codec.
- bcrypt.hash failures: `bcrypt.hash` is assumed to succeed.
- Express plumbing: routing, CORS, body parsing and static files are not modelled. A response is its status and a body datatype.
- Provider calls: the axios calls become a `Fetch` parameter. The live search response is modelled as a list of items, not the provider's full JSON shape. The forwarded query leaves out `apiKey` and the constant `addRecipeInformation: true`.
- SQL engine details: only the insert, filtered select, join, order and upsert semantics are modelled. The following are not:
  - UNIQUE comparison is exact, so collation case-insensitivity is not modelled.
  - Store.FindLogin: the login lookup compares email and username exactly. The database compares them under the column collation, which may ignore case and trailing spaces.
  - Store.FindLogin: the login query has no ORDER BY, so which row `users[0]` is is unspecified. The model takes the first match in insertion order. `Store.EarlierUsernameShadowsEmail` and `Store.FindLoginFindsOwner` depend on that order.
  - Auto-increment gaps after a failed insert are not modelled.
  - `cached_at` and `created_at` take the request's `nowMs`. The database clock and second resolution are not modelled.
  - Rows with equal `created_at` come out in one fixed order in the model. SQL leaves their order unspecified, and no contract here states their relative order.
- Concurrency, including the race between two cold-cache misses for the same recipe.
- Loose equality of ids: ids are integers. The source's loose comparison of the path's string id with numbers is not modelled. Every mock title `Mock Recipe ${id}` (server.js:285, 302) carries the raw path string. So does the `id` of the echo document (server.js:301-306), used for 102, 103 and ids outside 101..127. Only the generic document's `id` goes through `parseInt` (server.js:284). The model uses the integer throughout.
- Mock content: the mocks' image URLs, summaries, ingredient texts and step texts are a fixed marker. Ids, titles, presence of image and summary, and list lengths are modelled. Search items carry id, title, minutes and servings but not their images and summaries.
- Api.AuthorizeReview: `recipeId` and `rating` are numbers (`Option<int>`, truthy when present and non-zero). The client sends both as strings: the card's `data-id` and the hidden input's value. A string such as "0" is truthy in JavaScript and passes the server's check, while the model's 0 does not. Strings that are not numerals are not modelled.
- Api.Server.Register: the hash is computed before the insert. The model does not record that a duplicate still costs a hash.
- Stored ratings: the server stores any truthy rating, including values outside 1..5. The client's star string throws for those, and `Client.Stars` returns `None` for them.
- DOM work in app.js: innerHTML writes, alerts, modal show and hide, tab switching, skeletons, form reset and the register form's request building are left out. Only the values shown are modelled.
- Client.App.Load: the page markup (index.html) is not part of this model. The initial state takes every filter tag as inactive, `#rating-value` as empty and every star as regular; app.js itself sets only the empty diet and the null recipe id.
- Client.SearchDiet: models only the diet parameter of `handleSearch`. The query text, cuisine and type are form reads passed through unchanged.
- Stored JSON: the JSON.stringify/parse round trip of the stored user is taken as the identity.
- Client.App.ChooseStar: `data-value` strings are compared as integers. The source's string comparison agrees for one-digit values.
- Client.App.ApplyLogin: requires that a 2xx response carries a token body, which is what `Api.Login` guarantees.
- Client.SummaryLine: slices characters. JavaScript slices UTF-16 code units.
