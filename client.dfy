/**
 * The browser client: the pure formatting of recipe cards, reviews and the
 * recipe detail panel, and the page state the event listeners change (the
 * session kept in localStorage, the diet filter tags, the open recipe and the
 * star rating widget). Rendered HTML is modelled by the values it displays.
 */
module Client {
  import opened Wrappers
  import opened Http
  import opened Recipes
  import opened Store
  import Api

  // --------------------------------------------------------------- star string

  /** `c.repeat(n)`; JavaScript throws a RangeError for a negative count. */
  function Repeat(c: char, n: nat): (s: string)
    ensures |s| == n
    ensures forall i :: 0 <= i < n ==> s[i] == c
  {
    if n == 0 then "" else Repeat(c, n - 1) + [c]
  }

  /**
   * `'★'.repeat(r) + '☆'.repeat(5 - r)`: five characters, the first `r`
   * solid. For a rating outside 0..5 one of the repeats throws.
   */
  function Stars(rating: int): (r: Option<string>)
    ensures r.Some? <==> 0 <= rating <= 5
    ensures r.Some? ==> |r.value| == 5
    ensures r.Some? ==> forall i :: 0 <= i < 5 ==> r.value[i] == (if i < rating then '★' else '☆')
  {
    if 0 <= rating <= 5 then Some(Repeat('★', rating) + Repeat('☆', 5 - rating)) else None
  }

  /** The number of solid stars shown is the rating itself. */
  lemma StarsCountRating(rating: int)
    requires 1 <= rating <= 5
    ensures multiset(Stars(rating).value)['★'] == rating
    ensures multiset(Stars(rating).value)['☆'] == 5 - rating
  {
    var s := Stars(rating).value;
    assert s == Repeat('★', rating) + Repeat('☆', 5 - rating);
    RepeatCount('★', '☆', rating);
    RepeatCount('☆', '★', 5 - rating);
  }

  lemma {:induction false} RepeatCount(c: char, other: char, n: nat)
    requires c != other
    ensures multiset(Repeat(c, n))[c] == n && multiset(Repeat(c, n))[other] == 0
  {
    if n > 0 {
      RepeatCount(c, other, n - 1);
      assert Repeat(c, n) == Repeat(c, n - 1) + [c];
    }
  }

  // ------------------------------------------------------------------- reviews

  /** One rendered review: author, star string and comment text. */
  datatype ReviewItem = ReviewItem(username: string, stars: string, comment: string)

  /** The reviews panel: the fixed "No reviews yet. Be the first!" text, the items, or "Error loading reviews.". */
  datatype ReviewsView = NoReviews | ReviewItems(items: seq<ReviewItem>) | ReviewsError

  /** `${r.comment}`: a missing comment (SQL NULL) prints as "null". */
  function CommentText(comment: Option<string>): string {
    if comment.Some? then comment.value else "null"
  }

  /**
   * `renderReviews(reviews)`: an absent or empty list gives the fixed message;
   * otherwise one item per row in order. A rating outside 0..5 makes the star
   * string throw, which the caller shows as the loading error.
   */
  function RenderReviews(reviews: Option<seq<ReviewRow>>): (v: ReviewsView)
    ensures (reviews.None? || reviews.value == []) <==> v == NoReviews
    ensures v.ReviewsError? <==>
              reviews.Some? && exists k :: 0 <= k < |reviews.value| && Stars(reviews.value[k].review.rating).None?
    ensures v.ReviewItems? ==>
              && |v.items| == |reviews.value|
              && forall k :: 0 <= k < |v.items| ==>
                   var row := reviews.value[k];
                   v.items[k] == ReviewItem(row.username, Stars(row.review.rating).value, CommentText(row.review.comment))
  {
    if reviews.None? || reviews.value == [] then NoReviews
    else match RenderReviewItems(reviews.value)
      case None => ReviewsError
      case Some(items) => ReviewItems(items)
  }

  function RenderReviewItems(rows: seq<ReviewRow>): (r: Option<seq<ReviewItem>>)
    ensures r.None? <==> exists k :: 0 <= k < |rows| && Stars(rows[k].review.rating).None?
    ensures r.Some? ==>
              && |r.value| == |rows|
              && forall k :: 0 <= k < |rows| ==>
                   r.value[k] == ReviewItem(rows[k].username, Stars(rows[k].review.rating).value, CommentText(rows[k].review.comment))
  {
    if rows == [] then Some([])
    else
      var stars := Stars(rows[0].review.rating);
      var rest := RenderReviewItems(rows[1..]);
      if stars.None? || rest.None? then
        assert rest.None? ==> exists k :: 1 <= k < |rows| && Stars(rows[k].review.rating).None? by {
          if rest.None? {
            var k :| 0 <= k < |rows[1..]| && Stars(rows[1..][k].review.rating).None?;
            assert Stars(rows[k + 1].review.rating).None?;
          }
        }
        None
      else
        var item := ReviewItem(rows[0].username, stars.value, CommentText(rows[0].review.comment));
        assert forall k :: 1 <= k < |rows| ==> Stars(rows[k].review.rating) == Stars(rows[1..][k - 1].review.rating);
        Some([item] + rest.value)
  }

  /**
   * `renderReviews(await res.json())` inside the modal's try block: a list
   * body is rendered; an error object has no `map`, so rendering throws and
   * the panel shows the loading error.
   */
  function ReviewsPanel(body: Api.Body): (v: ReviewsView)
    ensures !body.ReviewRows? ==> v == ReviewsError
    ensures body.ReviewRows? ==> v == RenderReviews(Some(body.rows))
  {
    if body.ReviewRows? then RenderReviews(Some(body.rows)) else ReviewsError
  }

  // ----------------------------------------------------------------- recipes

  /** A recipe card: id, title, the minutes and the servings it shows. */
  datatype Card = Card(id: int, title: string, minutes: int, servings: int)

  /** The results area: "No recipes found." or one card per recipe. */
  datatype RecipesView = NoRecipes | Cards(cards: seq<Card>)

  /** One card: `readyInMinutes || 30` and `servings || 2`. */
  function CardOf(item: SearchItem): (c: Card)
    ensures c.id == item.id && c.title == item.title
    ensures c.minutes == (if TruthyInt(item.readyInMinutes) then item.readyInMinutes.value else 30)
    ensures c.servings == (if TruthyInt(item.servings) then item.servings.value else 2)
  {
    Card(item.id, item.title, OrElseInt(item.readyInMinutes, 30), OrElseInt(item.servings, 2))
  }

  /** `renderRecipes(recipes)`: an absent or empty list gives the fixed message; otherwise one card per recipe, in order. */
  function RenderRecipes(recipes: Option<seq<SearchItem>>): (v: RecipesView)
    ensures (recipes.None? || recipes.value == []) <==> v == NoRecipes
    ensures v.Cards? ==> |v.cards| == |recipes.value| > 0
    ensures v.Cards? ==> forall k :: 0 <= k < |v.cards| ==> v.cards[k] == CardOf(recipes.value[k])
  {
    if recipes.None? || recipes.value == [] then NoRecipes
    else Cards(seq(|recipes.value|, k requires 0 <= k < |recipes.value| => CardOf(recipes.value[k])))
  }

  /** `renderRecipes(data.results)`: a body without `results` (an error object) renders as no recipes. */
  function ResultsOf(body: Api.Body): (r: Option<seq<SearchItem>>)
    ensures r.Some? <==> body.Results?
    ensures body.Results? ==> r == Some(body.results)
  {
    if body.Results? then Some(body.results) else None
  }

  /** The fallback search renders 27 cards showing each mock's own time and servings; the first is Pasta Carbonara, 30m for 2. */
  lemma FallbackSearchRendersAllCards()
    ensures RenderRecipes(ResultsOf(Api.Response(200, Api.Results(FallbackResults())).body)).Cards?
    ensures var cards := RenderRecipes(ResultsOf(Api.Response(200, Api.Results(FallbackResults())).body)).cards;
            && |cards| == 27
            && cards[0] == Card(101, "Pasta Carbonara (Mock)", 30, 2)
            && forall k :: 0 <= k < 27 ==>
                 cards[k].minutes == FallbackResults()[k].readyInMinutes.value
                 && cards[k].servings == FallbackResults()[k].servings.value
  {
    FallbackListShape();
    var items := FallbackResults();
    forall k | 0 <= k < 27
      ensures TruthyInt(items[k].readyInMinutes) && TruthyInt(items[k].servings)
    {
    }
  }

  // ----------------------------------------------------------- detail panel

  const PLACEHOLDER_IMAGE := "https://via.placeholder.com/600"

  /** The detail panel: heading, image source, summary line, ingredient items and instruction steps. */
  datatype DetailView = DetailView(
    title: string, image: string, summary: string, ingredients: seq<string>, instructions: seq<string>)

  /** `recipe.summary ? recipe.summary.slice(0, 150) + '...' : ''`. */
  function SummaryLine(summary: Option<string>): (s: string)
    ensures !Truthy(summary) ==> s == ""
    ensures Truthy(summary) ==> |s| == Min(|summary.value|, 150) + 3 && s[|s| - 3..] == "..."
    ensures Truthy(summary) ==> s[..|s| - 3] == summary.value[..Min(|summary.value|, 150)]
  {
    if Truthy(summary) then summary.value[..Min(|summary.value|, 150)] + "..." else ""
  }

  function Min(a: int, b: int): int {
    if a < b then a else b
  }

  /** A summary of at most 150 characters is shown whole, followed by "...". */
  lemma ShortSummaryShownWhole(summary: string)
    requires 0 < |summary| <= 150
    ensures SummaryLine(Some(summary)) == summary + "..."
  {
  }

  /**
   * The detail panel of `openRecipeModal` for a document: a missing title
   * prints as "undefined", a missing image falls back to the placeholder,
   * ingredients come from `extendedIngredients` whenever it is present (even
   * empty), and steps only from the first `analyzedInstructions` block.
   */
  function RenderDetail(doc: RecipeDoc): (v: DetailView)
    ensures v.title == (if doc.title.Some? then doc.title.value else "undefined")
    ensures v.image == (if Truthy(doc.image) then doc.image.value else PLACEHOLDER_IMAGE)
    ensures v.summary == SummaryLine(doc.summary)
    ensures doc.ingredients.None? ==> v.ingredients == ["No ingredients listed"]
    ensures doc.ingredients.Some? ==> v.ingredients == doc.ingredients.value
    ensures (doc.instructions.None? || doc.instructions.value == []) ==> v.instructions == ["No instructions provided"]
    ensures doc.instructions.Some? && doc.instructions.value != [] ==> v.instructions == doc.instructions.value[0]
  {
    DetailView(
      if doc.title.Some? then doc.title.value else "undefined",
      if Truthy(doc.image) then doc.image.value else PLACEHOLDER_IMAGE,
      SummaryLine(doc.summary),
      if doc.ingredients.Some? then doc.ingredients.value else ["No ingredients listed"],
      if doc.instructions.Some? && doc.instructions.value != [] then doc.instructions.value[0] else ["No instructions provided"])
  }

  /** `await res.json()` of the detail request: an error body has none of the recipe fields. */
  function DocOf(body: Api.Body): (doc: RecipeDoc)
    ensures body.Detail? ==> doc == body.doc
    ensures !body.Detail? ==> doc == RecipeDoc(None, None, None, None, None, None)
  {
    if body.Detail? then body.doc else RecipeDoc(None, None, None, None, None, None)
  }

  /** A failed detail request renders as "undefined" with both placeholder lists. */
  lemma ErrorBodyRendersPlaceholders(message: string)
    ensures RenderDetail(DocOf(Api.Message(message)))
            == DetailView("undefined", PLACEHOLDER_IMAGE, "", ["No ingredients listed"], ["No instructions provided"])
  {
  }

  /**
   * Every fallback document renders with its own title and one item per
   * ingredient and step, never a placeholder list; the documents for ids
   * outside the featured and generic ones show the placeholder image and no
   * summary.
   */
  lemma MockDetailRendering(id: int)
    ensures RenderDetail(MockDetail(id)).title == MockDetail(id).title.value
    ensures RenderDetail(MockDetail(id)).ingredients == MockDetail(id).ingredients.value
    ensures RenderDetail(MockDetail(id)).instructions == MockDetail(id).instructions.value[0]
    ensures !HasSpecificMock(id) && !HasGenericMock(id) ==>
              RenderDetail(MockDetail(id)).image == PLACEHOLDER_IMAGE && RenderDetail(MockDetail(id)).summary == ""
  {
    var d := MockDetail(id);
    if HasSpecificMock(id) {
      assert d == SpecificMock(id);
    }
  }

  // ---------------------------------------------------------------- diet filter

  /** `currentFilters.diet` after clicking a tag: cleared if it was that tag's value, otherwise set to it. */
  function ToggledDiet(diet: string, tag: string): string {
    if diet == tag then "" else tag
  }

  /**
   * Clicking the same tag twice restores the filter exactly when it was empty
   * or already that tag; from another tag's value it ends empty.
   */
  lemma ToggleTwiceRestores(diet: string, tag: string)
    ensures ToggledDiet(ToggledDiet(diet, tag), tag) == diet <==> diet == "" || diet == tag
  {
  }

  /** The `diet` a search sends: the first active tag's value in page order, or "". */
  function SearchDiet(tags: seq<string>, active: seq<bool>): (d: string)
    requires |tags| == |active|
    ensures d != "" ==> exists k :: 0 <= k < |tags| && active[k] && tags[k] == d
    ensures (forall k :: 0 <= k < |tags| ==> !active[k]) ==> d == ""
    ensures forall k :: 0 <= k < |tags| && active[k] && (forall j :: 0 <= j < k ==> !active[j]) ==> d == tags[k]
  {
    if tags == [] then ""
    else if active[0] then tags[0]
    else
      var d := SearchDiet(tags[1..], active[1..]);
      assert d != "" ==> exists k :: 1 <= k < |tags| && active[k] && tags[k] == d by {
        if d != "" {
          var k :| 0 <= k < |tags[1..]| && active[1..][k] && tags[1..][k] == d;
          assert active[k + 1] && tags[k + 1] == d;
        }
      }
      assert forall k :: 1 <= k < |tags| && active[k] && (forall j :: 0 <= j < k ==> !active[j]) ==> d == tags[k] by {
        forall k | 1 <= k < |tags| && active[k] && (forall j :: 0 <= j < k ==> !active[j])
          ensures d == tags[k]
        {
          assert active[1..][k - 1] && forall j :: 0 <= j < k - 1 ==> !active[1..][j];
        }
      }
      d
  }

  /**
   * The search reads the diet from the active tags, not from
   * `currentFilters.diet`. From a page with no active tag and an empty
   * filter, clicking tag `i` and then a different tag `j` (as
   * `App.ClickFilterTag` does twice) leaves the filter at tag `j`'s value,
   * while the search sends the value of whichever of the two comes first on
   * the page; the two disagree exactly when `i` comes before `j`.
   */
  lemma FilterStateDivergesFromSentDiet(tags: seq<string>, i: int, j: int)
    requires 0 <= i < |tags| && 0 <= j < |tags| && i != j
    requires tags[i] != "" && tags[j] != "" && tags[i] != tags[j]
    ensures ToggledDiet(ToggledDiet("", tags[i]), tags[j]) == tags[j]
    ensures SearchDiet(tags, seq(|tags|, _ => false)[i := true][j := true]) == tags[if i < j then i else j]
    ensures (ToggledDiet(ToggledDiet("", tags[i]), tags[j]) != SearchDiet(tags, seq(|tags|, _ => false)[i := true][j := true]))
              <==> i < j
  {
    var active := seq(|tags|, _ => false)[i := true][j := true];
    var m := if i < j then i else j;
    assert active[m] && forall k :: 0 <= k < m ==> !active[k];
  }

  // ------------------------------------------------------------------ page state

  /** The request body and header a review submission sends. */
  datatype ReviewRequest = ReviewRequest(authorization: string, recipeId: Option<int>, rating: int, comment: string)

  class App {
    /** localStorage 'token' and 'user' (the user as JSON, parsed back unchanged). */
    var storedToken: Option<string>
    var storedUser: Option<Api.PublicUser>
    var currentUser: Option<Api.PublicUser>
    /** `currentFilters.diet`, and each filter tag's value and 'active' class, in page order. */
    var diet: string
    const tags: seq<string>
    var active: seq<bool>
    var currentRecipeId: Option<int>
    /** The hidden #rating-value input: None for ''. */
    var ratingValue: Option<int>
    /** Each star icon's `data-value`, and whether it has the class fa-solid (otherwise fa-regular). */
    const starValues: seq<int>
    const solid: array<bool>

    ghost predicate Valid()
      reads this
    {
      |active| == |tags| && solid.Length == |starValues|
    }

    /**
     * Page load (`init`): the saved user is restored only when both a token
     * and a user are stored; the filter is empty and no recipe is open.
     */
    constructor Load(token: Option<string>, user: Option<Api.PublicUser>, tags: seq<string>, starValues: seq<int>)
      ensures Valid() && fresh(solid)
      ensures storedToken == token && storedUser == user
      ensures currentUser == (if Truthy(token) && user.Some? then user else None)
      ensures diet == "" && this.tags == tags && active == seq(|tags|, _ => false)
      ensures currentRecipeId.None? && ratingValue.None?
      ensures this.starValues == starValues && solid[..] == seq(|starValues|, _ => false)
    {
      storedToken, storedUser := token, user;
      currentUser := if Truthy(token) && user.Some? then user else None;
      diet := "";
      this.tags := tags;
      active := seq(|tags|, _ => false);
      currentRecipeId, ratingValue := None, None;
      this.starValues := starValues;
      solid := new bool[|starValues|](_ => false);
    }

    /**
     * The login form's response: on success (2xx, which the server sends only
     * with a token) the token and user are stored and become current;
     * otherwise nothing changes.
     */
    method ApplyLogin(resp: Api.Response)
      requires 200 <= resp.status < 300 ==> resp.body.LoggedIn?
      modifies this`storedToken, this`storedUser, this`currentUser
      ensures 200 <= resp.status < 300 ==>
                && storedToken == Some(resp.body.token)
                && storedUser == Some(resp.body.user)
                && currentUser == Some(resp.body.user)
      ensures !(200 <= resp.status < 300) ==>
                storedToken == old(storedToken) && storedUser == old(storedUser) && currentUser == old(currentUser)
    {
      if 200 <= resp.status < 300 {
        storedToken := Some(resp.body.token);
        storedUser := Some(resp.body.user);
        currentUser := Some(resp.body.user);
      }
    }

    /**
     * The auth button: logged in, it logs out (both keys removed, no current
     * user); logged out, it only opens the login dialog.
     */
    method ClickAuthButton() returns (opensDialog: bool)
      modifies this`storedToken, this`storedUser, this`currentUser
      ensures opensDialog <==> old(currentUser).None?
      ensures old(currentUser).Some? ==> storedToken.None? && storedUser.None? && currentUser.None?
      ensures old(currentUser).None? ==>
                storedToken == old(storedToken) && storedUser == old(storedUser) && currentUser == old(currentUser)
    {
      if currentUser.Some? {
        storedToken, storedUser, currentUser := None, None, None;
        opensDialog := false;
      } else {
        opensDialog := true;
      }
    }

    /** Clicking filter tag `i`: its 'active' class flips and `currentFilters.diet` toggles to or from its value. */
    method ClickFilterTag(i: int)
      requires Valid() && 0 <= i < |tags|
      modifies this`active, this`diet
      ensures Valid()
      ensures active == old(active)[i := !old(active)[i]]
      ensures diet == ToggledDiet(old(diet), tags[i])
    {
      active := active[i := !active[i]];
      diet := if diet == tags[i] then "" else tags[i];
    }

    /** Opening a recipe records its id; the review form is shown only to a logged-in user. */
    method OpenRecipe(id: int) returns (showsReviewForm: bool)
      modifies this`currentRecipeId
      ensures currentRecipeId == Some(id)
      ensures showsReviewForm <==> currentUser.Some?
    {
      currentRecipeId := Some(id);
      showsReviewForm := currentUser.Some?;
    }

    /** Choosing star `v`: #rating-value becomes `v` and exactly the stars valued at most `v` turn solid. */
    method ChooseStar(v: int)
      requires Valid()
      modifies this`ratingValue, solid
      ensures Valid()
      ensures ratingValue == Some(v)
      ensures forall k :: 0 <= k < solid.Length ==> solid[k] == (starValues[k] <= v)
    {
      ratingValue := Some(v);
      var k := 0;
      while k < solid.Length
        invariant 0 <= k <= solid.Length
        invariant ratingValue == Some(v)
        invariant forall j :: 0 <= j < k ==> solid[j] == (starValues[j] <= v)
      {
        solid[k] := starValues[k] <= v;
        k := k + 1;
      }
    }

    /**
     * Submitting the review form: nothing is sent without a rating; otherwise
     * the stored token (or the text "null" when none is stored) goes in the
     * Bearer header with the open recipe, the rating and the comment.
     */
    function Submission(comment: string): (req: Option<ReviewRequest>)
      reads this
      ensures req.None? <==> ratingValue.None?
      ensures req.Some? ==> req.value.rating == ratingValue.value && req.value.recipeId == currentRecipeId
      ensures req.Some? ==> req.value.authorization == "Bearer " + (if storedToken.Some? then storedToken.value else "null")
      ensures req.Some? ==> req.value.comment == comment
    {
      if ratingValue.None? then None
      else Some(ReviewRequest("Bearer " + (if storedToken.Some? then storedToken.value else "null"),
                              currentRecipeId, ratingValue.value, comment))
    }
  }
}
