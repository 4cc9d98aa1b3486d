/**
 * The recipe provider adapter's data: search result items, recipe detail
 * documents, and the fixed data served in fallback mode (no provider key).
 * Image URLs and summaries of search items are not modelled.
 */
module Recipes {
  import opened Wrappers

  /** One search result: the fields a recipe card shows. */
  datatype SearchItem = SearchItem(id: int, title: string, readyInMinutes: Option<int>, servings: Option<int>)

  /**
   * A recipe detail document as JSON, every field possibly absent:
   * `extendedIngredients[].original` and `analyzedInstructions[].steps[].step`.
   */
  datatype RecipeDoc = RecipeDoc(
    id: Option<int>,
    title: Option<string>,
    image: Option<string>,
    summary: Option<string>,
    ingredients: Option<seq<string>>,
    instructions: Option<seq<seq<string>>>)

  // ---------------------------------------------------------------- decimal ids

  function DigitChar(d: nat): (c: char)
    requires d < 10
    ensures '0' <= c <= '9'
  {
    (48 + d) as char
  }

  /** The decimal numeral of `n`, as a template literal prints it. */
  function NatDigits(n: nat): (s: string)
    ensures |s| >= 1
    ensures forall i :: 0 <= i < |s| ==> '0' <= s[i] <= '9'
    decreases n
  {
    if n < 10 then [DigitChar(n)] else NatDigits(n / 10) + [DigitChar(n % 10)]
  }

  /** The value of a string of decimal digits. */
  function DigitsValue(s: string): nat
    requires forall i :: 0 <= i < |s| ==> '0' <= s[i] <= '9'
  {
    if s == [] then 0 else DigitsValue(s[..|s| - 1]) * 10 + (s[|s| - 1] as int - 48)
  }

  lemma {:induction false} DigitsRoundTrip(n: nat)
    ensures DigitsValue(NatDigits(n)) == n
    decreases n
  {
    if n >= 10 {
      var s := NatDigits(n);
      assert s[..|s| - 1] == NatDigits(n / 10);
      DigitsRoundTrip(n / 10);
    }
  }

  /** `${id}` for an integer id. */
  function Decimal(n: int): string {
    if n < 0 then "-" + NatDigits(-n) else NatDigits(n)
  }

  function MockTitle(id: int): string {
    "Mock Recipe " + Decimal(id)
  }

  // ------------------------------------------------------- fallback search list

  /** The 27 mock recipes fallback search answers with, in this fixed order. */
  function FallbackResults(): seq<SearchItem> {
    [ SearchItem(101, "Pasta Carbonara (Mock)", Some(30), Some(2)),
      SearchItem(104, "Chicken Biryani (Mock)", Some(60), Some(4)),
      SearchItem(105, "Chocolate Lava Cake (Mock)", Some(25), Some(2)),
      SearchItem(102, "Veggie Burger (Mock)", Some(20), Some(1)),
      SearchItem(103, "Sushi Roll (Mock)", Some(45), Some(4)),
      SearchItem(106, "Street Tacos (Mock)", Some(20), Some(3)),
      SearchItem(107, "Classic Pizza Margherita (Mock)", Some(40), Some(2)),
      SearchItem(108, "Shrimp Pad Thai (Mock)", Some(35), Some(2)),
      SearchItem(109, "Fluffy Pancakes (Mock)", Some(15), Some(4)),
      SearchItem(110, "Chicken Caesar Salad (Mock)", Some(20), Some(1)),
      SearchItem(111, "Spicy Ramen Bowl (Mock)", Some(50), Some(2)),
      SearchItem(112, "Grilled Beef Steak (Mock)", Some(30), Some(2)),
      SearchItem(113, "Avocado Toast (Mock)", Some(10), Some(1)),
      SearchItem(114, "New York Cheesecake (Mock)", Some(90), Some(8)),
      SearchItem(115, "Berry Smoothie Bowl (Mock)", Some(10), Some(1)),
      SearchItem(116, "Butter Chicken (Mock)", Some(45), Some(4)),
      SearchItem(117, "Paneer Tikka Masala (Mock)", Some(40), Some(4)),
      SearchItem(118, "Masala Dosa (Mock)", Some(30), Some(3)),
      SearchItem(119, "Eggs Benedict (Mock)", Some(25), Some(2)),
      SearchItem(120, "Belgian Waffles (Mock)", Some(20), Some(4)),
      SearchItem(121, "French Toast (Mock)", Some(15), Some(2)),
      SearchItem(122, "Club Sandwich (Mock)", Some(10), Some(1)),
      SearchItem(123, "Greek Salad (Mock)", Some(10), Some(2)),
      SearchItem(124, "Tomato Soup & Grilled Cheese (Mock)", Some(20), Some(2)),
      SearchItem(125, "Roast Chicken (Mock)", Some(90), Some(4)),
      SearchItem(126, "Grilled Salmon (Mock)", Some(25), Some(2)),
      SearchItem(127, "Vegetable Lasagna (Mock)", Some(60), Some(6)) ]
  }

  /** Where recipe `id` of 101..127 sits in the fallback list. */
  function FallbackPosition(id: int): int {
    if id == 101 then 0
    else if id == 104 then 1
    else if id == 105 then 2
    else if id == 102 then 3
    else if id == 103 then 4
    else id - 101
  }

  /**
   * The fallback list holds 27 items, starts with Pasta Carbonara (101) and
   * ends with Vegetable Lasagna (127), and lists every id of 101..127 exactly
   * once, each at its FallbackPosition.
   */
  lemma FallbackListShape()
    ensures |FallbackResults()| == 27
    ensures FallbackResults()[0].id == 101 && FallbackResults()[0].title == "Pasta Carbonara (Mock)"
    ensures FallbackResults()[26].id == 127 && FallbackResults()[26].title == "Vegetable Lasagna (Mock)"
    ensures forall i :: 0 <= i < 27 ==> 101 <= FallbackResults()[i].id <= 127
    ensures forall i :: 0 <= i < 27 ==> FallbackPosition(FallbackResults()[i].id) == i
    ensures forall id :: 101 <= id <= 127 ==> FallbackResults()[FallbackPosition(id)].id == id
  {
    var r := FallbackResults();
    forall i | 0 <= i < 27
      ensures 101 <= r[i].id <= 127 && FallbackPosition(r[i].id) == i
    {
      if i < 5 {
      } else {
        assert r[i].id == 101 + i;
      }
    }
    forall id | 101 <= id <= 127
      ensures 0 <= FallbackPosition(id) < 27 && r[FallbackPosition(id)].id == id
    {
    }
  }

  /** Consequently no id appears twice in the fallback list. */
  lemma FallbackIdsDistinct(i: int, j: int)
    requires 0 <= i < j < |FallbackResults()|
    ensures FallbackResults()[i].id != FallbackResults()[j].id
  {
    FallbackListShape();
  }

  // ------------------------------------------------------ fallback detail mocks

  /** The ids that have a hand-written mock document. */
  predicate HasSpecificMock(id: int) {
    id == 101 || id == 104 || id == 105 || id == 116 || id == 117 || id == 118
  }

  /** Ids 106..127 without a hand-written mock get the generic three-step document. */
  predicate HasGenericMock(id: int) {
    !HasSpecificMock(id) && 106 <= id <= 127
  }

  /**
   * Hand-written mock text the model does not interpret (image URLs,
   * summaries, ingredient and step lines). Every such text in the mocks is
   * non-empty and shorter than 150 characters, which is all the client's
   * rendering depends on, and so is this marker.
   */
  const AUTHORED: string := "(authored text)"

  /** `n` lines of hand-written text. */
  function AuthoredLines(n: nat): (lines: seq<string>)
    ensures |lines| == n
  {
    seq(n, _ => AUTHORED)
  }

  /** A hand-written mock: title, image, summary, `ingredients` lines and one block of `steps` steps. */
  function Authored(id: int, title: string, ingredients: nat, steps: nat): (d: RecipeDoc)
    ensures d.id == Some(id) && d.title == Some(title)
    ensures d.image.Some? && d.summary.Some?
    ensures d.ingredients == Some(AuthoredLines(ingredients))
    ensures d.instructions == Some([AuthoredLines(steps)])
  {
    RecipeDoc(Some(id), Some(title), Some(AUTHORED), Some(AUTHORED),
      Some(AuthoredLines(ingredients)), Some([AuthoredLines(steps)]))
  }

  /** The six hand-written fallback documents, with their titles and list lengths. */
  function SpecificMock(id: int): (d: RecipeDoc)
    requires HasSpecificMock(id)
    ensures d.id == Some(id) && d.image.Some? && d.summary.Some?
    ensures d.ingredients.Some? && d.instructions.Some? && |d.instructions.value| == 1
    ensures id == 101 ==>
              d.title == Some("Pasta Carbonara (Mock)") && |d.ingredients.value| == 6 && |d.instructions.value[0]| == 5
    ensures id == 104 ==>
              d.title == Some("Chicken Biryani (Mock)") && |d.ingredients.value| == 6 && |d.instructions.value[0]| == 5
    ensures id == 105 ==>
              d.title == Some("Chocolate Lava Cake (Mock)") && |d.ingredients.value| == 5 && |d.instructions.value[0]| == 5
    ensures id == 116 ==>
              d.title == Some("Butter Chicken (Mock)") && |d.ingredients.value| == 5 && |d.instructions.value[0]| == 4
    ensures id == 117 ==>
              d.title == Some("Paneer Tikka Masala (Mock)") && |d.ingredients.value| == 5 && |d.instructions.value[0]| == 4
    ensures id == 118 ==>
              d.title == Some("Masala Dosa (Mock)") && |d.ingredients.value| == 5 && |d.instructions.value[0]| == 4
  {
    if id == 101 then Authored(101, "Pasta Carbonara (Mock)", 6, 5)
    else if id == 104 then Authored(104, "Chicken Biryani (Mock)", 6, 5)
    else if id == 105 then Authored(105, "Chocolate Lava Cake (Mock)", 5, 5)
    else if id == 116 then Authored(116, "Butter Chicken (Mock)", 5, 4)
    else if id == 117 then Authored(117, "Paneer Tikka Masala (Mock)", 5, 4)
    else Authored(118, "Masala Dosa (Mock)", 5, 4)
  }

  /**
   * The fallback detail document for `id`: a hand-written mock for the six
   * featured ids, a generic three-ingredient, three-step document for the rest
   * of 106..127, and otherwise a one-ingredient, one-step document with no
   * image and no summary that echoes the id.
   */
  function MockDetail(id: int): (d: RecipeDoc)
    ensures d.id == Some(id)
    ensures d.ingredients.Some? && d.instructions.Some? && |d.instructions.value| == 1
    ensures HasSpecificMock(id) ==> d == SpecificMock(id)
    ensures HasGenericMock(id) ==>
              d.title == Some(MockTitle(id)) && d.image.Some? && d.summary.Some?
              && |d.ingredients.value| == 3 && |d.instructions.value[0]| == 3
    ensures !HasSpecificMock(id) && !HasGenericMock(id) ==>
              d.title == Some(MockTitle(id)) && d.image.None? && d.summary.None?
              && |d.ingredients.value| == 1 && |d.instructions.value[0]| == 1
  {
    if HasSpecificMock(id) then SpecificMock(id)
    else if 106 <= id <= 127 then
      Authored(id, MockTitle(id), 3, 3)
    else
      RecipeDoc(Some(id), Some(MockTitle(id)), None, None, Some(AuthoredLines(1)), Some([AuthoredLines(1)]))
  }

  /** Every fallback search title is tagged "(Mock)" at its end. */
  lemma FallbackTitlesEndWithMockTag(i: int)
    requires 0 <= i < |FallbackResults()|
    ensures |FallbackResults()[i].title| >= 6
    ensures FallbackResults()[i].title[|FallbackResults()[i].title| - 1] == ')'
  {
  }

  /** A generic mock title ends in a digit of its id. */
  lemma MockTitleEndsWithDigit(id: int)
    ensures '0' <= MockTitle(id)[|MockTitle(id)| - 1] <= '9'
  {
    var digits := if id < 0 then NatDigits(-id) else NatDigits(id);
    assert MockTitle(id)[|MockTitle(id)| - 1] == digits[|digits| - 1];
  }

  /**
   * A fallback search item and the fallback detail document for its id carry
   * the same title exactly for the six featured recipes; the other 21 listed
   * recipes open as "Mock Recipe <id>".
   */
  lemma FallbackTitlesAgreeOnlyForFeatured(i: int)
    requires 0 <= i < |FallbackResults()|
    ensures MockDetail(FallbackResults()[i].id).title == Some(FallbackResults()[i].title)
            <==> HasSpecificMock(FallbackResults()[i].id)
  {
    var item := FallbackResults()[i];
    if !HasSpecificMock(item.id) {
      FallbackTitlesEndWithMockTag(i);
      MockTitleEndsWithDigit(item.id);
    }
  }
}
