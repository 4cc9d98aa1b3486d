/**
 * The persistence gateway: the `users` and `reviews` tables and the queries
 * the handlers run on them. Tables are sequences in insertion (primary key)
 * order; ids come from an auto-increment counter.
 */
module Store {
  import opened Wrappers

  /** The preference document a client sends at registration. */
  datatype Preferences = Preferences(diet: seq<string>, excludedIngredients: seq<string>)

  /** The stored `preferences` column: `JSON.stringify(preferences || {})`. */
  datatype StoredPreferences = EmptyObject | Given(prefs: Preferences)

  /** A `users` row. */
  datatype User = User(
    id: nat, username: string, email: string, passwordHash: string,
    preferences: StoredPreferences, cookingSkill: string)

  /**
   * The users table's constraints: ids below the next auto-increment value and
   * distinct, and the UNIQUE keys on username and on email.
   */
  ghost predicate UsersValid(users: seq<User>, nextId: nat) {
    && (forall i :: 0 <= i < |users| ==> users[i].id < nextId)
    && (forall i, j :: 0 <= i < j < |users| ==>
          users[i].id != users[j].id
          && users[i].username != users[j].username
          && users[i].email != users[j].email)
  }

  /** An insert of (username, email) would violate a UNIQUE key (`ER_DUP_ENTRY`). */
  predicate Taken(users: seq<User>, username: string, email: string) {
    exists i :: 0 <= i < |users| && (users[i].username == username || users[i].email == email)
  }

  /** Appending a user whose username and email are not taken, under a fresh id, keeps the constraints. */
  lemma InsertKeepsUsersValid(users: seq<User>, nextId: nat, u: User)
    requires UsersValid(users, nextId)
    requires !Taken(users, u.username, u.email)
    requires u.id == nextId
    ensures UsersValid(users + [u], nextId + 1)
  {
    var users' := users + [u];
    forall i, j | 0 <= i < j < |users'|
      ensures users'[i].id != users'[j].id
      ensures users'[i].username != users'[j].username
      ensures users'[i].email != users'[j].email
    {
      if j == |users| {
        assert users'[i] == users[i];
      }
    }
  }

  // ----------------------------------------------------------------- login query

  /** `WHERE email = ? OR username = ?` with the same value in both places. */
  predicate MatchesLogin(u: User, ident: string) {
    u.email == ident || u.username == ident
  }

  /** `users[0]` of that query: the first matching row in table order. */
  ghost predicate IsFirstLoginMatch(users: seq<User>, ident: string, i: int) {
    && 0 <= i < |users|
    && MatchesLogin(users[i], ident)
    && forall j :: 0 <= j < i ==> !MatchesLogin(users[j], ident)
  }

  /** The index of the row login takes, or None when the query returns no row. */
  function FindLogin(users: seq<User>, ident: string): (r: Option<nat>)
    ensures r.Some? ==> IsFirstLoginMatch(users, ident, r.value)
    ensures r.None? ==> forall j :: 0 <= j < |users| ==> !MatchesLogin(users[j], ident)
  {
    FindLoginFrom(users, ident, 0)
  }

  function FindLoginFrom(users: seq<User>, ident: string, k: nat): (r: Option<nat>)
    requires k <= |users|
    ensures r.Some? ==> k <= r.value < |users| && MatchesLogin(users[r.value], ident)
    ensures r.Some? ==> forall j :: k <= j < r.value ==> !MatchesLogin(users[j], ident)
    ensures r.None? ==> forall j :: k <= j < |users| ==> !MatchesLogin(users[j], ident)
    decreases |users| - k
  {
    if k == |users| then None
    else if MatchesLogin(users[k], ident) then Some(k)
    else FindLoginFrom(users, ident, k + 1)
  }

  /**
   * In a valid table no two rows share an email or a username, so a user's
   * own email finds that user exactly when no earlier row has it as its
   * username, and the user's own username finds that user exactly when no
   * earlier row has it as its email.
   */
  lemma FindLoginFindsOwner(users: seq<User>, nextId: nat, i: int)
    requires UsersValid(users, nextId)
    requires 0 <= i < |users|
    ensures FindLogin(users, users[i].email) == Some(i)
            <==> forall j :: 0 <= j < i ==> users[j].username != users[i].email
    ensures FindLogin(users, users[i].username) == Some(i)
            <==> forall j :: 0 <= j < i ==> users[j].email != users[i].username
  {
    FirstMatchAt(users, users[i].email, i);
    FirstMatchAt(users, users[i].username, i);
  }

  /** FindLogin lands on a matching row `i` exactly when no earlier row matches. */
  lemma FirstMatchAt(users: seq<User>, ident: string, i: int)
    requires 0 <= i < |users| && MatchesLogin(users[i], ident)
    ensures FindLogin(users, ident) == Some(i) <==> forall j :: 0 <= j < i ==> !MatchesLogin(users[j], ident)
  {
    var r := FindLogin(users, ident);
    if forall j :: 0 <= j < i ==> !MatchesLogin(users[j], ident) {
      assert r.Some?;
    }
  }

  /**
   * A username that equals another account's email shadows that account:
   * logging in with the email selects the earlier row, whose password the
   * request is then checked against.
   */
  lemma EarlierUsernameShadowsEmail(alice: User, bob: User)
    requires alice.username == bob.email
    ensures FindLogin([alice, bob], bob.email) == Some(0)
  {
  }

  // --------------------------------------------------------------------- reviews

  /** A `reviews` row; `created_at` is set by the database at insert time. */
  datatype Review = Review(
    id: nat, userId: nat, recipeId: int, rating: int, comment: Option<string>, createdAt: int)

  /** A row of `SELECT r.*, u.username FROM reviews r JOIN users u ON r.user_id = u.id`. */
  datatype ReviewRow = ReviewRow(review: Review, username: string)

  /** The reviews table's primary key: ids below the next auto-increment value and distinct. */
  ghost predicate ReviewIdsValid(reviews: seq<Review>, nextId: nat) {
    && (forall i :: 0 <= i < |reviews| ==> reviews[i].id < nextId)
    && (forall i, j :: 0 <= i < j < |reviews| ==> reviews[i].id != reviews[j].id)
  }

  /** Appending a review under the next id keeps the primary key valid. */
  lemma InsertKeepsReviewIdsValid(reviews: seq<Review>, nextId: nat, r: Review)
    requires ReviewIdsValid(reviews, nextId)
    requires r.id == nextId
    ensures ReviewIdsValid(reviews + [r], nextId + 1)
  {
    var reviews' := reviews + [r];
    forall i, j | 0 <= i < j < |reviews'|
      ensures reviews'[i].id != reviews'[j].id
    {
      if j == |reviews| {
        assert reviews'[i] == reviews[i];
      }
    }
  }

  /** The username of the user with `id`, if there is one. */
  function UsernameOf(users: seq<User>, id: nat): (r: Option<string>)
    ensures r.Some? ==> exists i :: 0 <= i < |users| && users[i].id == id && users[i].username == r.value
    ensures r.None? ==> forall i :: 0 <= i < |users| ==> users[i].id != id
  {
    if users == [] then None
    else if users[0].id == id then Some(users[0].username)
    else
      var r := UsernameOf(users[1..], id);
      assert r.Some? ==> exists i :: 0 <= i < |users[1..]| && users[1..][i].id == id && users[1..][i].username == r.value;
      r
  }

  /** `WHERE r.recipe_id = ?` joined with the author's username, in table order; a review whose author is missing drops out of the join. */
  function JoinedFor(reviews: seq<Review>, users: seq<User>, recipeId: int): (rows: seq<ReviewRow>)
    ensures |rows| <= |reviews|
    ensures forall k :: 0 <= k < |rows| ==>
              rows[k].review in reviews && rows[k].review.recipeId == recipeId
              && UsernameOf(users, rows[k].review.userId) == Some(rows[k].username)
  {
    if reviews == [] then []
    else
      var rest := JoinedFor(reviews[1..], users, recipeId);
      var r := reviews[0];
      if r.recipeId == recipeId && UsernameOf(users, r.userId).Some? then
        [ReviewRow(r, UsernameOf(users, r.userId).value)] + rest
      else rest
  }

  /**
   * The join follows table order: a review appended to the table adds its
   * row at the end of the join when it is for the recipe and its author
   * exists, and adds nothing otherwise. With `JoinedFor([]) == []` this fixes
   * the join completely, each matching review once and in insertion order.
   */
  lemma {:induction false} JoinedForAppend(reviews: seq<Review>, r: Review, users: seq<User>, recipeId: int)
    ensures JoinedFor([], users, recipeId) == []
    ensures JoinedFor(reviews + [r], users, recipeId)
            == JoinedFor(reviews, users, recipeId)
               + (if r.recipeId == recipeId && UsernameOf(users, r.userId).Some?
                  then [ReviewRow(r, UsernameOf(users, r.userId).value)] else [])
    decreases |reviews|
  {
    if reviews != [] {
      assert (reviews + [r])[1..] == reviews[1..] + [r];
      assert (reviews + [r])[0] == reviews[0];
      JoinedForAppend(reviews[1..], r, users, recipeId);
    } else {
      assert ([] + [r])[1..] == [];
    }
  }

  /** Every review of the recipe whose author exists appears in the join. */
  lemma {:induction false} JoinedForComplete(reviews: seq<Review>, users: seq<User>, recipeId: int, r: Review)
    requires r in reviews && r.recipeId == recipeId && UsernameOf(users, r.userId).Some?
    ensures ReviewRow(r, UsernameOf(users, r.userId).value) in JoinedFor(reviews, users, recipeId)
  {
    if reviews[0] != r {
      JoinedForComplete(reviews[1..], users, recipeId, r);
    }
  }

  /** `ORDER BY r.created_at DESC`. */
  ghost predicate NewestFirst(rows: seq<ReviewRow>) {
    forall i, j :: 0 <= i < j < |rows| ==> rows[i].review.createdAt >= rows[j].review.createdAt
  }

  /** Puts `x` before the first row that is not newer than it. */
  function InsertNewestFirst(x: ReviewRow, rows: seq<ReviewRow>): (r: seq<ReviewRow>)
    requires NewestFirst(rows)
    ensures NewestFirst(r)
    ensures multiset(r) == multiset(rows) + multiset{x}
    ensures r[0] == x || (rows != [] && r[0] == rows[0])
  {
    if rows == [] then [x]
    else if rows[0].review.createdAt <= x.review.createdAt then
      PrependNewestFirst(x, rows);
      [x] + rows
    else
      TailNewestFirst(rows);
      var rest := InsertNewestFirst(x, rows[1..]);
      PrependNewestFirst(rows[0], rest);
      assert multiset(rows) == multiset{rows[0]} + multiset(rows[1..]) by {
        assert rows == [rows[0]] + rows[1..];
      }
      [rows[0]] + rest
  }

  lemma TailNewestFirst(rows: seq<ReviewRow>)
    requires rows != [] && NewestFirst(rows)
    ensures NewestFirst(rows[1..])
  {
    forall i, j | 0 <= i < j < |rows| - 1
      ensures rows[1..][i].review.createdAt >= rows[1..][j].review.createdAt
    {
      assert rows[1..][i] == rows[i + 1] && rows[1..][j] == rows[j + 1];
    }
  }

  /** A row at least as new as the first of a newest-first list can go in front of it. */
  lemma PrependNewestFirst(y: ReviewRow, rows: seq<ReviewRow>)
    requires NewestFirst(rows)
    requires rows != [] ==> rows[0].review.createdAt <= y.review.createdAt
    ensures NewestFirst([y] + rows)
  {
    var r := [y] + rows;
    forall i, j | 0 <= i < j < |r|
      ensures r[i].review.createdAt >= r[j].review.createdAt
    {
      assert r[j] == rows[j - 1];
      if i == 0 {
        assert rows[0].review.createdAt >= rows[j - 1].review.createdAt;
      } else {
        assert r[i] == rows[i - 1];
      }
    }
  }

  /** Sorts newest first; rows with equal timestamps keep their table order. */
  function SortNewestFirst(rows: seq<ReviewRow>): (r: seq<ReviewRow>)
    ensures NewestFirst(r)
    ensures multiset(r) == multiset(rows)
  {
    if rows == [] then []
    else
      assert rows == [rows[0]] + rows[1..];
      InsertNewestFirst(rows[0], SortNewestFirst(rows[1..]))
  }

  /** The result of `GET /reviews/:recipeId`: the joined rows of the recipe, newest first. */
  function ReviewsFor(reviews: seq<Review>, users: seq<User>, recipeId: int): (rows: seq<ReviewRow>)
    ensures NewestFirst(rows)
    ensures multiset(rows) == multiset(JoinedFor(reviews, users, recipeId))
  {
    SortNewestFirst(JoinedFor(reviews, users, recipeId))
  }

  /**
   * A row is listed for the recipe exactly when it pairs a review of that
   * recipe with its author's username.
   */
  lemma ReviewsForMembership(reviews: seq<Review>, users: seq<User>, recipeId: int, row: ReviewRow)
    ensures row in ReviewsFor(reviews, users, recipeId) <==>
              row.review in reviews && row.review.recipeId == recipeId
              && UsernameOf(users, row.review.userId) == Some(row.username)
  {
    var joined := JoinedFor(reviews, users, recipeId);
    assert row in ReviewsFor(reviews, users, recipeId) <==> row in multiset(joined);
    if row.review in reviews && row.review.recipeId == recipeId && UsernameOf(users, row.review.userId) == Some(row.username) {
      JoinedForComplete(reviews, users, recipeId, row.review);
    }
  }

  /**
   * A review strictly newer than every other review of its recipe, posted by
   * an existing user, is listed first, with its author's username.
   */
  lemma NewestReviewListedFirst(reviews: seq<Review>, users: seq<User>, r: Review)
    requires r in reviews
    requires UsernameOf(users, r.userId).Some?
    requires forall k :: 0 <= k < |reviews| && reviews[k] != r && reviews[k].recipeId == r.recipeId ==>
               reviews[k].createdAt < r.createdAt
    ensures |ReviewsFor(reviews, users, r.recipeId)| > 0
    ensures ReviewsFor(reviews, users, r.recipeId)[0] == ReviewRow(r, UsernameOf(users, r.userId).value)
  {
    var rows := ReviewsFor(reviews, users, r.recipeId);
    var mine := ReviewRow(r, UsernameOf(users, r.userId).value);
    ReviewsForMembership(reviews, users, r.recipeId, mine);
    var k :| 0 <= k < |rows| && rows[k] == mine;
    ReviewsForMembership(reviews, users, r.recipeId, rows[0]);
  }
}
