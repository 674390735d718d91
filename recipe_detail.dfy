/** The logic of the recipe detail screen (src/screens/RecipeDetailScreen.js):
    which ingredient slots to list, how the YouTube video id is taken out of
    the recipe's video link, and the screen's three state fields. */
module RecipeDetailScreen {
  import opened Wrappers
  import opened MealDb

  /** A meal record numbers its ingredient slots 1 to 20. */
  const MaxIngredients: nat := 20

  function Digit(d: nat): char
    requires d < 10
  {
    "0123456789"[d]
  }

  /** JavaScript's decimal rendering of a non-negative integer, as used by
      `"strIngredient" + i`. */
  function Decimal(n: nat): string
  {
    if n < 10 then [Digit(n)] else Decimal(n / 10) + [Digit(n % 10)]
  }

  function IngredientKey(i: nat): string {
    "strIngredient" + Decimal(i)
  }

  /** `mealData["strIngredient" + i]` is truthy: present, not null, not empty. */
  predicate HasIngredient(meal: Meal, i: nat) {
    IngredientKey(i) in meal.fields && meal.fields[IngredientKey(i)] != ""
  }

  /** `ingredientsIndicies`: the slots 1..20 whose ingredient is filled in,
      in increasing order; nothing while the meal has not loaded. */
  method IngredientIndices(mealData: Option<Meal>) returns (indices: seq<nat>)
    ensures mealData.None? ==> indices == []
    ensures forall k :: 0 <= k < |indices| ==> 1 <= indices[k] <= MaxIngredients
    ensures forall k, l :: 0 <= k < l < |indices| ==> indices[k] < indices[l]
    ensures |indices| <= MaxIngredients
    ensures forall i :: 1 <= i <= MaxIngredients ==>
              (i in indices <==> mealData.Some? && HasIngredient(mealData.value, i))
  {
    indices := [];
    if mealData.Some? {
      var meal := mealData.value;
      var i: nat := 1;
      while i <= MaxIngredients
        invariant 1 <= i <= MaxIngredients + 1
        invariant |indices| <= i - 1
        invariant forall k :: 0 <= k < |indices| ==> 1 <= indices[k] < i
        invariant forall k, l :: 0 <= k < l < |indices| ==> indices[k] < indices[l]
        invariant forall j :: 1 <= j < i ==> (j in indices <==> HasIngredient(meal, j))
      {
        if HasIngredient(meal, i) {
          indices := indices + [i];
        }
        i := i + 1;
      }
    }
  }

  // ---------------------------------------------------------------------------
  // getYoutubeVideoId: the first match of /[?&]v=([^&]+)/, scanned directly.

  /** The pattern matches at `p`: a `?` or `&`, then `v=`, then at least one
      character other than `&`. */
  predicate MatchAt(url: string, p: nat) {
    p + 3 < |url| && (url[p] == '?' || url[p] == '&') && url[p + 1] == 'v' && url[p + 2] == '='
    && url[p + 3] != '&'
  }

  /** The leftmost position at or after `from` where the pattern matches. */
  function FirstMatch(url: string, from: nat): (p: Option<nat>)
    decreases |url| - from
    ensures p.Some? ==> from <= p.value && MatchAt(url, p.value)
    ensures p.Some? ==> forall q :: from <= q < p.value ==> !MatchAt(url, q)
    ensures p.None? ==> forall q :: from <= q ==> !MatchAt(url, q)
  {
    if |url| <= from + 3 then None
    else if MatchAt(url, from) then Some(from)
    else FirstMatch(url, from + 1)
  }

  /** Where the greedy run `[^&]+` that starts at `j` ends. */
  function RunEnd(url: string, j: nat): (e: nat)
    requires j <= |url|
    decreases |url| - j
    ensures j <= e <= |url|
    ensures forall k :: j <= k < e ==> url[k] != '&'
    ensures e == |url| || url[e] == '&'
  {
    if j == |url| || url[j] == '&' then j else RunEnd(url, j + 1)
  }

  /** `getYoutubeVideoId`: the capture group of the first match, or `null`. */
  function YoutubeVideoId(url: string): (id: Option<string>)
    ensures id.None? <==> forall p :: !MatchAt(url, p)
    ensures id.Some? ==> |id.value| > 0 && forall k :: 0 <= k < |id.value| ==> id.value[k] != '&'
  {
    match FirstMatch(url, 0)
    case None => None
    case Some(p) => Some(url[p + 3..RunEnd(url, p + 3)])
  }

  /** The id is fixed by the leftmost match alone: it is the whole run of
      non-`&` characters after that match's `v=`. */
  lemma VideoIdAtLeftmostMatch(url: string, p: nat, e: nat)
    requires MatchAt(url, p)
    requires forall q: nat :: q < p ==> !MatchAt(url, q)
    requires p + 3 <= e <= |url|
    requires forall k :: p + 3 <= k < e ==> url[k] != '&'
    requires e == |url| || url[e] == '&'
    ensures YoutubeVideoId(url) == Some(url[p + 3..e])
  {
  }

  /** A typical watch link: the id stops at the next parameter. */
  lemma WatchLinkExample()
    ensures YoutubeVideoId("w?v=ab&t=9") == Some("ab")
  {
    var url := "w?v=ab&t=9";
    assert !MatchAt(url, 0);
    assert MatchAt(url, 1);
    VideoIdAtLeftmostMatch(url, 1, 6);
    assert url[4..6] == "ab";
  }

  /** `&v=` counts as well as `?v=`, and an empty `v=` is skipped over. */
  lemma LaterParameterExample()
    ensures YoutubeVideoId("?v=&v=xy") == Some("xy")
  {
    var url := "?v=&v=xy";
    assert forall q: nat :: q < 3 ==> !MatchAt(url, q);
    VideoIdAtLeftmostMatch(url, 3, 8);
    assert url[6..8] == "xy";
  }

  // ---------------------------------------------------------------------------
  // The screen's state and the one place its render dereferences `mealData`.

  /** The answer to `lookup.php`: a body whose `meals` is a list or is
      missing / null (a null body is the same as a missing list), or a
      rejected request. */
  datatype LookupResponse = LookupAnswered(meals: Option<seq<Meal>>) | LookupFailed

  datatype RenderError = TypeError

  /** Line 299 as written: `mealData.strInstructions` reads a field of
      `mealData` without `?.`, which throws when it is null. The text is
      `None` when the field is missing. */
  function InstructionsAsWritten(mealData: Option<Meal>): (r: Result<Option<string>, RenderError>)
    ensures r.Failure? <==> mealData.None?
  {
    match mealData
    case None => Failure(TypeError)
    case Some(meal) =>
      Success(if "strInstructions" in meal.fields then Some(meal.fields["strInstructions"]) else None)
  }

  /** The instructions text read as `mealData?.strInstructions`, the way the
      name and area are read on lines 127 and 133. */
  function Instructions(mealData: Option<Meal>): (text: Option<string>)
    ensures text.Some? ==> mealData.Some? && "strInstructions" in mealData.value.fields
                           && text.value == mealData.value.fields["strInstructions"]
    ensures mealData.Some? && "strInstructions" in mealData.value.fields ==> text.Some?
  {
    if mealData.Some? && "strInstructions" in mealData.value.fields
    then Some(mealData.value.fields["strInstructions"])
    else None
  }

  /** The corrected reading agrees with the written one wherever the written
      one does not throw. */
  lemma InstructionsAgreeWhenLoaded(mealData: Option<Meal>)
    requires mealData.Some?
    ensures InstructionsAsWritten(mealData) == Success(Instructions(mealData))
  {
  }

  class DetailScreen {
    /** `route.params`: the summary of the recipe that was tapped. */
    const item: MealSummary
    var isFavourite: bool
    var mealData: Option<Meal>
    var loading: bool

    constructor Open(item: MealSummary)
      ensures this.item == item
      ensures !isFavourite && mealData == None && loading
    {
      this.item := item;
      isFavourite := false;
      mealData := None;
      loading := true;
    }

    /** The heart button: `setIsFavourite(!isFavourite)`. */
    method ToggleFavourite()
      modifies this
      ensures isFavourite == !old(isFavourite)
      ensures mealData == old(mealData) && loading == old(loading)
    {
      isFavourite := !isFavourite;
    }

    /** The end of the mount-time lookup. A body with a `meals` list sets
        `mealData` to its first element (`undefined`, so still nothing, when
        the list is empty); anything else leaves `mealData` alone. `finally`
        clears `loading` on every path. */
    method LookupFinished(response: LookupResponse)
      modifies this
      ensures !loading
      ensures isFavourite == old(isFavourite)
      ensures response.LookupAnswered? && response.meals.Some? ==>
                mealData == (if |response.meals.value| > 0 then Some(response.meals.value[0]) else None)
      ensures !(response.LookupAnswered? && response.meals.Some?) ==> mealData == old(mealData)
    {
      if response.LookupAnswered? && response.meals.Some? {
        var meals := response.meals.value;
        mealData := if |meals| > 0 then Some(meals[0]) else None;
      }
      loading := false;
    }
  }

  /** Two presses of the heart restore the original value. */
  method PressHeartTwice(screen: DetailScreen)
    modifies screen
    ensures screen.isFavourite == old(screen.isFavourite)
    ensures screen.mealData == old(screen.mealData) && screen.loading == old(screen.loading)
  {
    screen.ToggleFavourite();
    screen.ToggleFavourite();
  }

  /** A screen whose lookup request fails stops loading with no meal, and
      then line 299 as written throws while rendering. */
  method FailedLookupBreaksRender(item: MealSummary) returns (screen: DetailScreen)
    ensures !screen.loading && screen.mealData == None
    ensures InstructionsAsWritten(screen.mealData) == Failure(TypeError)
    ensures Instructions(screen.mealData) == None
  {
    screen := new DetailScreen.Open(item);
    screen.LookupFinished(LookupFailed);
  }
}
