/**
 * End-to-end behaviour across the client, the API layer, the credential store
 * and the cache: the request sequences a user actually goes through.
 */
module Scenarios {
  import opened Wrappers
  import opened Http
  import opened Credentials
  import opened Recipes
  import opened Store
  import opened Api
  import RecipeCache
  import Client

  /**
   * A review request carrying `Bearer <token>` for a token issued at
   * `issuedMs` is accepted under the token's user id exactly while the token
   * has not expired, and is otherwise refused as an invalid token.
   */
  lemma BearerTokenAuthorizesUntilExpiry(codec: TokenCodec, id: nat, username: string, issuedMs: int, nowMs: int,
                                         recipeId: int, rating: int)
    requires CodecSound(codec)
    requires recipeId != 0 && rating != 0
    ensures AuthorizeReview(codec, Some("Bearer " + Issue(codec, id, username, issuedMs)), Some(recipeId), Some(rating), nowMs)
            == if Seconds(nowMs) < Seconds(issuedMs) + TOKEN_LIFETIME_SECONDS then Success(id) else Failure(INVALID_TOKEN)
  {
    var token := Issue(codec, id, username, issuedMs);
    var claims := Claims(id, username, Seconds(issuedMs), Seconds(issuedMs) + TOKEN_LIFETIME_SECONDS);
    assert NoSpace(codec.sign(claims));
    BearerTokenOfBearerHeader(token);
    IssuedTokenVerifiesUntilExpiry(codec, id, username, issuedMs, nowMs);
  }

  /** A review posted 59 minutes after login is accepted; one posted 61 minutes after is refused. */
  lemma TokenAcceptedAt59RejectedAt61(codec: TokenCodec, id: nat, username: string, issuedMs: int, recipeId: int, rating: int)
    requires CodecSound(codec)
    requires recipeId != 0 && rating != 0
    ensures AuthorizeReview(codec, Some("Bearer " + Issue(codec, id, username, issuedMs)), Some(recipeId), Some(rating),
                            issuedMs + 59 * 60 * 1000) == Success(id)
    ensures AuthorizeReview(codec, Some("Bearer " + Issue(codec, id, username, issuedMs)), Some(recipeId), Some(rating),
                            issuedMs + 61 * 60 * 1000) == Failure(INVALID_TOKEN)
  {
    BearerTokenAuthorizesUntilExpiry(codec, id, username, issuedMs, issuedMs + 59 * 60 * 1000, recipeId, rating);
    BearerTokenAuthorizesUntilExpiry(codec, id, username, issuedMs, issuedMs + 61 * 60 * 1000, recipeId, rating);
    SecondsShift(issuedMs, 59 * 60);
    SecondsShift(issuedMs, 61 * 60);
  }

  /**
   * Registering twice with the same email: the first succeeds, the second is
   * refused as a duplicate and changes nothing, and logging in with the first
   * registration's email and password still succeeds for that account.
   */
  method RegisterTwiceThenLogin(s: Server, username: string, otherName: string, email: string,
                                password: string, otherPassword: string, salt: nat, otherSalt: nat, nowMs: int)
    returns (first: Response, second: Response, login: Response)
    requires s.Valid() && HasherSound(s.hasher)
    requires username != "" && otherName != "" && email != "" && password != "" && otherPassword != ""
    requires !Taken(s.users, username, email)
    requires forall j :: 0 <= j < |s.users| ==> s.users[j].username != email
    modifies s
    ensures first.status == 201 && first.body.Registered?
    ensures second == DUPLICATE_USER
    ensures login.status == 200 && login.body.LoggedIn?
    ensures login.body.user.id == first.body.userId && login.body.user.username == username
  {
    ghost var before := s.users;
    first := s.Register(Some(username), Some(email), Some(password), None, None, salt, false);
    var row := s.users[|before|];
    assert s.users == before + [row];
    assert row.email == email && row.username == username;
    assert Taken(s.users, otherName, email) by {
      assert s.users[|before|].email == email;
    }
    second := s.Register(Some(otherName), Some(email), Some(otherPassword), None, None, otherSalt, false);
    FindLoginFindsOwner(s.users, s.nextUserId, |before|);
    assert s.hasher.compare(password, row.passwordHash);
    login := Login(s.users, s.hasher, s.codec, Some(email), Some(password), nowMs, false);
  }

  /**
   * Two detail requests for a recipe within a day, with the cache working:
   * the provider is called at most once, and when the first request was a
   * miss the second is served the document the first fetched.
   */
  method DetailCachedWithinADay(s: Server, id: int, t0: int, t1: int, doc: RecipeDoc, secondReply: Fetch<RecipeDoc>)
    returns (r0: Response, r1: Response)
    requires !FallbackMode(s.apiKey)
    requires t0 <= t1 < t0 + RecipeCache.DAY_MS
    modifies s
    ensures |s.fetches| <= old(|s.fetches|) + 1
    ensures old(RecipeCache.Lookup(s.cache, id, t0)).None? ==> r0 == r1 == Response(200, Detail(doc))
  {
    r0 := s.GetRecipe(id, t0, false, Fetched(doc), false);
    if RecipeCache.Lookup(s.cache, id, t1).None? {
      assert old(RecipeCache.Lookup(s.cache, id, t0)).Some?;
    }
    r1 := s.GetRecipe(id, t1, false, secondReply, false);
  }

  /** After a day, the same recipe is fetched from the provider again. */
  method DetailRefetchedAfterADay(s: Server, id: int, t0: int, t1: int, doc: RecipeDoc, secondReply: Fetch<RecipeDoc>)
    returns (r0: Response, r1: Response)
    requires !FallbackMode(s.apiKey)
    requires RecipeCache.Lookup(s.cache, id, t0).None?
    requires t1 >= t0 + RecipeCache.DAY_MS
    modifies s
    ensures s.fetches == old(s.fetches) + [id, id]
    ensures r0 == Response(200, Detail(doc))
    ensures secondReply.Fetched? ==> r1 == Response(200, Detail(secondReply.data))
  {
    r0 := s.GetRecipe(id, t0, false, Fetched(doc), false);
    r1 := s.GetRecipe(id, t1, false, secondReply, false);
  }

  /** In fallback mode a detail miss serves the mock and the cache is never written. */
  method FallbackNeverCaches(s: Server, id: int, nowMs: int, reply: Fetch<RecipeDoc>, writeFails: bool)
    returns (r: Response)
    requires FallbackMode(s.apiKey)
    requires RecipeCache.Lookup(s.cache, id, nowMs).None?
    modifies s
    ensures r == Response(200, Detail(MockDetail(id)))
    ensures s.cache == old(s.cache) && s.fetches == old(s.fetches)
  {
    r := s.GetRecipe(id, nowMs, false, reply, writeFails);
  }

  /**
   * A user logs in through the client, opens a recipe and picks five stars:
   * the review the client submits is accepted under that user's id while the
   * token is within its hour, and refused as an invalid token afterwards.
   */
  method LoginThenReview(app: Client.App, users: seq<User>, hasher: PasswordHasher, codec: TokenCodec,
                         ident: string, password: string, loginMs: int, postMs: int, recipeId: int, comment: string)
    returns (auth: Result<nat, Response>)
    requires app.Valid() && CodecSound(codec)
    requires Login(users, hasher, codec, Some(ident), Some(password), loginMs, false).status == 200
    requires recipeId != 0
    modifies app, app.solid
    ensures var user := Login(users, hasher, codec, Some(ident), Some(password), loginMs, false).body.user;
            && app.currentUser == Some(user)
            && auth == if Seconds(postMs) < Seconds(loginMs) + TOKEN_LIFETIME_SECONDS then Success(user.id)
                       else Failure(INVALID_TOKEN)
  {
    var resp := Login(users, hasher, codec, Some(ident), Some(password), loginMs, false);
    app.ApplyLogin(resp);
    var _ := app.OpenRecipe(recipeId);
    app.ChooseStar(5);
    var req := app.Submission(comment);
    ghost var i :| IsFirstLoginMatch(users, ident, i)
             && resp.body == LoggedIn(Issue(codec, users[i].id, users[i].username, loginMs),
                                      PublicUser(users[i].id, users[i].username, users[i].preferences));
    BearerTokenAuthorizesUntilExpiry(codec, users[i].id, users[i].username, loginMs, postMs, recipeId, 5);
    auth := AuthorizeReview(codec, Some(req.value.authorization), req.value.recipeId, Some(req.value.rating), postMs);
  }

  /**
   * A review posted by an existing user, later than every review already
   * stored, is the first row the recipe's review list returns, with its
   * author's username, rating and comment.
   */
  method PostedReviewListedFirst(s: Server, header: Option<string>, recipeId: int, rating: int,
                                 comment: Option<string>, nowMs: int)
    returns (posted: Response, listed: Response)
    requires s.Valid()
    requires AuthorizeReview(s.codec, header, Some(recipeId), Some(rating), nowMs).Success?
    requires UsernameOf(s.users, AuthorizeReview(s.codec, header, Some(recipeId), Some(rating), nowMs).value).Some?
    requires forall k :: 0 <= k < |s.reviews| ==> s.reviews[k].createdAt < nowMs
    modifies s
    ensures posted == REVIEW_ADDED && s.users == old(s.users)
    ensures listed.status == 200 && listed.body.ReviewRows? && |listed.body.rows| > 0
    ensures var author := AuthorizeReview(s.codec, header, Some(recipeId), Some(rating), nowMs).value;
            var first := listed.body.rows[0];
            && first.review.userId == author && first.username == UsernameOf(s.users, author).value
            && first.review.recipeId == recipeId && first.review.rating == rating && first.review.comment == comment
  {
    ghost var before := s.reviews;
    posted := s.PostReview(header, Some(recipeId), Some(rating), comment, nowMs, false);
    var mine := s.reviews[|before|];
    assert s.reviews == before + [mine];
    NewestReviewListedFirst(s.reviews, s.users, mine);
    listed := ListReviews(s.reviews, s.users, recipeId, false);
  }
}
