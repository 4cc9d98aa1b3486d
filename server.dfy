/**
 * The HTTP API layer: one operation per route. Handlers that only read are
 * functions of the tables they query; register, posting a review and the
 * recipe-detail cache path change the tables and are methods of `Server`.
 * Database and provider failures, the clock and the random salt are
 * parameters of each call.
 */
module Api {
  import opened Wrappers
  import opened Http
  import opened Credentials
  import opened Recipes
  import opened Store
  import RecipeCache

  /** The user fields login returns. */
  datatype PublicUser = PublicUser(id: nat, username: string, preferences: StoredPreferences)

  /** JSON response bodies. */
  datatype Body =
    | Message(text: string)                   // { message }
    | Registered(userId: nat)                 // { message: 'User registered', userId }
    | LoggedIn(token: string, user: PublicUser)
    | Results(results: seq<SearchItem>)       // { results: [...] }
    | Detail(doc: RecipeDoc)
    | ReviewRows(rows: seq<ReviewRow>)
    | HealthOk                                // { status: 'ok', db: 'connected' }
    | HealthError(message: string)            // { status: 'error', message }

  datatype Response = Response(status: int, body: Body)

  /** Whatever reached the provider, and what came back. */
  datatype Fetch<T> = Fetched(data: T) | FetchFailed

  const MISSING_FIELDS := Response(400, Message("Missing fields"))
  const DUPLICATE_USER := Response(400, Message("Username or Email already exists. Please Login."))
  const REGISTER_FAILED := Response(500, Message("Error registering user"))
  const INVALID_CREDENTIALS := Response(401, Message("Invalid credentials"))
  const LOGIN_FAILED := Response(500, Message("Login failed"))
  const UPSTREAM_ERROR := Response(500, Message("External API Error"))
  const UNAUTHORIZED := Response(401, Message("Unauthorized"))
  const INVALID_TOKEN := Response(401, Message("Invalid token"))
  const REVIEW_ADDED := Response(201, Message("Review added"))
  const REVIEW_FAILED := Response(500, Message("Error adding review"))
  const REVIEWS_FAILED := Response(500, Message("Error fetching reviews"))

  /** No provider key, an empty one, or the placeholder: search and details use mock data. */
  predicate FallbackMode(apiKey: Option<string>) {
    !Truthy(apiKey) || apiKey.value == "YOUR_API_KEY_HERE"
  }

  // ------------------------------------------------------------------- login

  /**
   * POST /login. `ident` is the request's `email` field, matched against
   * email or username; the first matching row is checked with bcrypt.
   */
  function Login(users: seq<User>, hasher: PasswordHasher, codec: TokenCodec,
                 ident: Option<string>, password: Option<string>, nowMs: int, queryFails: bool): (r: Response)
    ensures r.status == 200 || r == INVALID_CREDENTIALS || r == LOGIN_FAILED
    ensures r == LOGIN_FAILED <==>
              queryFails || (ident.Some? && FindLogin(users, ident.value).Some? && password.None?)
    ensures r.status == 200 <==>
              !queryFails && ident.Some? && password.Some?
              && exists i :: IsFirstLoginMatch(users, ident.value, i) && hasher.compare(password.value, users[i].passwordHash)
    ensures r.status == 200 ==>
              exists i :: IsFirstLoginMatch(users, ident.value, i)
                && r.body == LoggedIn(Issue(codec, users[i].id, users[i].username, nowMs),
                                      PublicUser(users[i].id, users[i].username, users[i].preferences))
  {
    if queryFails then LOGIN_FAILED
    else
      match (if ident.Some? then FindLogin(users, ident.value) else None)
      case None => INVALID_CREDENTIALS
      case Some(i) =>
        if password.None? then LOGIN_FAILED
        else if !hasher.compare(password.value, users[i].passwordHash) then INVALID_CREDENTIALS
        else
          var u := users[i];
          Response(200, LoggedIn(Issue(codec, u.id, u.username, nowMs), PublicUser(u.id, u.username, u.preferences)))
  }

  /**
   * An unknown identifier and a wrong password for a known one produce the
   * same response, so a caller cannot tell which accounts exist.
   */
  lemma LoginFailuresIndistinguishable(users: seq<User>, hasher: PasswordHasher, codec: TokenCodec,
                                       unknown: string, known: string, password: string, nowMs: int)
    requires FindLogin(users, unknown).None?
    requires FindLogin(users, known).Some?
    requires !hasher.compare(password, users[FindLogin(users, known).value].passwordHash)
    ensures Login(users, hasher, codec, Some(unknown), Some(password), nowMs, false)
            == Login(users, hasher, codec, Some(known), Some(password), nowMs, false)
            == INVALID_CREDENTIALS
  {
  }

  // ------------------------------------------------------------ posting reviews

  /**
   * The checks of POST /reviews, in the order they run: a missing header,
   * then a token that does not verify, then a falsy recipeId or rating. On
   * success, the id of the user the token was issued to.
   */
  function AuthorizeReview(codec: TokenCodec, header: Option<string>, recipeId: Option<int>, rating: Option<int>,
                           nowMs: int): (r: Result<nat, Response>)
    ensures !Truthy(header) ==> r == Failure(UNAUTHORIZED)
    ensures Truthy(header) && Verify(codec, BearerToken(header.value), nowMs).None? ==> r == Failure(INVALID_TOKEN)
    ensures (Truthy(header) && Verify(codec, BearerToken(header.value), nowMs).Some?
             && !(TruthyInt(recipeId) && TruthyInt(rating))) ==> r == Failure(MISSING_FIELDS)
    ensures r.Success? <==>
              Truthy(header) && Verify(codec, BearerToken(header.value), nowMs).Some?
              && TruthyInt(recipeId) && TruthyInt(rating)
    ensures r.Success? ==> r.value == Verify(codec, BearerToken(header.value), nowMs).value.id
  {
    if !Truthy(header) then Failure(UNAUTHORIZED)
    else
      match Verify(codec, BearerToken(header.value), nowMs)
      case None => Failure(INVALID_TOKEN)
      case Some(claims) =>
        if !TruthyInt(recipeId) || !TruthyInt(rating) then Failure(MISSING_FIELDS)
        else Success(claims.id)
  }

  /** Authentication is checked before the body: a request failing both gets the 401. */
  lemma AuthCheckedBeforeFields(codec: TokenCodec, header: Option<string>, nowMs: int)
    requires Truthy(header) ==> Verify(codec, BearerToken(header.value), nowMs).None?
    ensures AuthorizeReview(codec, header, None, None, nowMs).Failure?
    ensures AuthorizeReview(codec, header, None, None, nowMs).error.status == 401
  {
  }

  // --------------------------------------------------------------------- search

  /** The request forwarded to the provider's search: `query`, `diet`, `cuisine` and `number: 9`. */
  datatype ProviderQuery = ProviderQuery(query: Option<string>, diet: Option<string>, cuisine: Option<string>, number: nat)

  /** A search response, and the provider request it made if any. */
  datatype SearchOutcome = SearchOutcome(response: Response, forwarded: Option<ProviderQuery>)

  /**
   * GET /recipes. In fallback mode the 27 mock items, with no provider call
   * and whatever the filters; otherwise the provider's answer, or 500 when it
   * fails. The `type` parameter is accepted and never read.
   */
  function Search(apiKey: Option<string>, q: Option<string>, diet: Option<string>, cuisine: Option<string>,
                  mealType: Option<string>, reply: Fetch<seq<SearchItem>>): (o: SearchOutcome)
    ensures FallbackMode(apiKey) ==> o.forwarded.None? && o.response == Response(200, Results(FallbackResults()))
    ensures !FallbackMode(apiKey) ==> o.forwarded == Some(ProviderQuery(q, diet, cuisine, 9))
    ensures !FallbackMode(apiKey) ==>
              o.response == (if reply.Fetched? then Response(200, Results(reply.data)) else UPSTREAM_ERROR)
  {
    if FallbackMode(apiKey) then SearchOutcome(Response(200, Results(FallbackResults())), None)
    else
      var forwarded := Some(ProviderQuery(q, diet, cuisine, 9));
      match reply
      case Fetched(items) => SearchOutcome(Response(200, Results(items)), forwarded)
      case FetchFailed => SearchOutcome(UPSTREAM_ERROR, forwarded)
  }

  /** In fallback mode the answer is the same for every query and filter, and its first and last items are fixed. */
  lemma FallbackSearchIgnoresFilters(apiKey: Option<string>,
                                     q: Option<string>, diet: Option<string>, cuisine: Option<string>, mealType: Option<string>,
                                     q': Option<string>, diet': Option<string>, cuisine': Option<string>, mealType': Option<string>,
                                     reply: Fetch<seq<SearchItem>>, reply': Fetch<seq<SearchItem>>)
    requires FallbackMode(apiKey)
    ensures Search(apiKey, q, diet, cuisine, mealType, reply) == Search(apiKey, q', diet', cuisine', mealType', reply')
    ensures var items := Search(apiKey, q, diet, cuisine, mealType, reply).response.body.results;
            |items| == 27 && items[0].title == "Pasta Carbonara (Mock)" && items[26].title == "Vegetable Lasagna (Mock)"
  {
    FallbackListShape();
  }

  // -------------------------------------------------------------------- reviews

  /** GET /reviews/:recipeId: the recipe's reviews with their authors' usernames, newest first. */
  function ListReviews(reviews: seq<Review>, users: seq<User>, recipeId: int, queryFails: bool): (r: Response)
    ensures queryFails ==> r == REVIEWS_FAILED
    ensures !queryFails ==> r.status == 200 && r.body.ReviewRows?
    ensures !queryFails ==> NewestFirst(r.body.rows)
    ensures !queryFails ==> multiset(r.body.rows) == multiset(JoinedFor(reviews, users, recipeId))
  {
    if queryFails then REVIEWS_FAILED else Response(200, ReviewRows(ReviewsFor(reviews, users, recipeId)))
  }

  // --------------------------------------------------------------------- health

  /** GET /health: a trivial query; its error message is passed through. */
  function Health(dbError: Option<string>): (r: Response)
    ensures r.status == 200 <==> dbError.None?
    ensures dbError.Some? ==> r == Response(500, HealthError(dbError.value))
  {
    match dbError
    case None => Response(200, HealthOk)
    case Some(message) => Response(500, HealthError(message))
  }

  // ------------------------------------------------------- the stateful server

  class Server {
    var users: seq<User>
    var nextUserId: nat
    var reviews: seq<Review>
    var nextReviewId: nat
    var cache: RecipeCache.Table
    const apiKey: Option<string>
    const hasher: PasswordHasher
    const codec: TokenCodec
    /** The recipe ids the provider's detail endpoint was asked for, in order. */
    ghost var fetches: seq<int>

    ghost predicate Valid()
      reads this
    {
      UsersValid(users, nextUserId) && ReviewIdsValid(reviews, nextReviewId)
    }

    /** Empty tables; auto-increment starts at 1. */
    constructor (apiKey: Option<string>, hasher: PasswordHasher, codec: TokenCodec)
      ensures Valid()
      ensures users == [] && reviews == [] && cache == map[] && fetches == []
      ensures this.apiKey == apiKey && this.hasher == hasher && this.codec == codec
    {
      users, nextUserId := [], 1;
      reviews, nextReviewId := [], 1;
      cache := map[];
      this.apiKey, this.hasher, this.codec := apiKey, hasher, codec;
      fetches := [];
    }

    /**
     * POST /register. Missing fields are rejected first; a username or email
     * already in use gives 400; another insert failure gives 500; otherwise
     * exactly one row is appended under the next id, with preferences
     * defaulting to `{}` and the cooking skill to 'intermediate'.
     */
    method Register(username: Option<string>, email: Option<string>, password: Option<string>,
                    preferences: Option<Preferences>, cookingSkill: Option<string>,
                    salt: nat, insertFails: bool) returns (resp: Response)
      requires Valid()
      modifies this`users, this`nextUserId
      ensures Valid()
      ensures !(Truthy(username) && Truthy(email) && Truthy(password)) ==>
                resp == MISSING_FIELDS && users == old(users) && nextUserId == old(nextUserId)
      ensures Truthy(username) && Truthy(email) && Truthy(password) && Taken(old(users), username.value, email.value) ==>
                resp == DUPLICATE_USER && users == old(users) && nextUserId == old(nextUserId)
      ensures Truthy(username) && Truthy(email) && Truthy(password) && !Taken(old(users), username.value, email.value) ==>
                if insertFails then
                  resp == REGISTER_FAILED && users == old(users) && nextUserId == old(nextUserId)
                else
                  && resp == Response(201, Registered(old(nextUserId)))
                  && nextUserId == old(nextUserId) + 1
                  && users == old(users) + [User(old(nextUserId), username.value, email.value,
                                                 hasher.hash(password.value, salt),
                                                 if preferences.Some? then Given(preferences.value) else EmptyObject,
                                                 OrElse(cookingSkill, "intermediate"))]
    {
      if !Truthy(username) || !Truthy(email) || !Truthy(password) {
        return MISSING_FIELDS;
      }
      var hashed := hasher.hash(password.value, salt);
      if Taken(users, username.value, email.value) {
        return DUPLICATE_USER;
      }
      if insertFails {
        return REGISTER_FAILED;
      }
      var stored := if preferences.Some? then Given(preferences.value) else EmptyObject;
      var row := User(nextUserId, username.value, email.value, hashed, stored, OrElse(cookingSkill, "intermediate"));
      InsertKeepsUsersValid(users, nextUserId, row);
      users := users + [row];
      resp := Response(201, Registered(nextUserId));
      nextUserId := nextUserId + 1;
    }

    /**
     * POST /reviews. The request is authorized first (AuthorizeReview); then
     * exactly one review is appended under the token's user id, stamped with
     * the current time, or the insert fails with 500 and nothing changes.
     */
    method PostReview(header: Option<string>, recipeId: Option<int>, rating: Option<int>, comment: Option<string>,
                      nowMs: int, insertFails: bool) returns (resp: Response)
      requires Valid()
      modifies this`reviews, this`nextReviewId
      ensures Valid()
      ensures AuthorizeReview(codec, header, recipeId, rating, nowMs).Failure? ==>
                resp == AuthorizeReview(codec, header, recipeId, rating, nowMs).error
                && reviews == old(reviews) && nextReviewId == old(nextReviewId)
      ensures AuthorizeReview(codec, header, recipeId, rating, nowMs).Success? ==>
                if insertFails then
                  resp == REVIEW_FAILED && reviews == old(reviews) && nextReviewId == old(nextReviewId)
                else
                  && resp == REVIEW_ADDED
                  && nextReviewId == old(nextReviewId) + 1
                  && reviews == old(reviews) + [Review(old(nextReviewId), AuthorizeReview(codec, header, recipeId, rating, nowMs).value,
                                                       recipeId.value, rating.value, comment, nowMs)]
    {
      var auth := AuthorizeReview(codec, header, recipeId, rating, nowMs);
      if auth.Failure? {
        return auth.error;
      }
      if insertFails {
        return REVIEW_FAILED;
      }
      var row := Review(nextReviewId, auth.value, recipeId.value, rating.value, comment, nowMs);
      InsertKeepsReviewIdsValid(reviews, nextReviewId, row);
      reviews := reviews + [row];
      nextReviewId := nextReviewId + 1;
      resp := REVIEW_ADDED;
    }

    /**
     * GET /recipes/:id. A fresh cached row is served as is. On a stale row, a
     * missing one or a failed read: in fallback mode the mock document, with
     * no provider call and no cache write; otherwise one provider call whose
     * document is upserted (a failed write is ignored) and returned, or 500
     * with the cache unchanged when the call fails.
     */
    method GetRecipe(id: int, nowMs: int, readFails: bool, reply: Fetch<RecipeDoc>, writeFails: bool)
      returns (resp: Response)
      modifies this`cache, this`fetches
      ensures FallbackMode(apiKey) ==> cache == old(cache) && fetches == old(fetches)
      ensures !readFails && RecipeCache.Lookup(old(cache), id, nowMs).Some? ==>
                && resp == Response(200, Detail(RecipeCache.Lookup(old(cache), id, nowMs).value))
                && cache == old(cache) && fetches == old(fetches)
      ensures (readFails || RecipeCache.Lookup(old(cache), id, nowMs).None?) && FallbackMode(apiKey) ==>
                resp == Response(200, Detail(MockDetail(id)))
      ensures (readFails || RecipeCache.Lookup(old(cache), id, nowMs).None?) && !FallbackMode(apiKey) ==>
                && fetches == old(fetches) + [id]
                && (reply.FetchFailed? ==> resp == UPSTREAM_ERROR && cache == old(cache))
                && (reply.Fetched? ==>
                      && resp == Response(200, Detail(reply.data))
                      && cache == if writeFails then old(cache) else RecipeCache.Upsert(old(cache), id, reply.data, nowMs))
    {
      if !readFails {
        var hit := RecipeCache.Lookup(cache, id, nowMs);
        if hit.Some? {
          return Response(200, Detail(hit.value));
        }
      }
      if FallbackMode(apiKey) {
        return Response(200, Detail(MockDetail(id)));
      }
      fetches := fetches + [id];
      match reply
      case FetchFailed =>
        resp := UPSTREAM_ERROR;
      case Fetched(doc) =>
        if !writeFails {
          cache := RecipeCache.Upsert(cache, id, doc, nowMs);
        }
        resp := Response(200, Detail(doc));
    }
  }
}
