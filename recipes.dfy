/** The presentation rules of a recipe card (src/components/Recipes.js): the
    shortened title, the padding that depends on the column, and the image
    height. The `hp` sizes are fractions of the screen height, so the height
    is kept as a two-valued choice. */
module Recipes {
  import opened MealDb

  /** Titles longer than this many characters are cut (JavaScript counts UTF-16
      code units; the two agree inside the Basic Multilingual Plane). */
  const TitleLimit: nat := 20
  const Ellipsis: string := "..."
  /** The gap between the two columns, in density-independent pixels. */
  const ColumnGap: nat := 8

  function Min(a: nat, b: nat): nat {
    if a <= b then a else b
  }

  /** `strMeal.length > 20 ? strMeal.slice(0, 20) + "..." : strMeal` */
  function DisplayTitle(name: string): (title: string)
    ensures |name| <= TitleLimit ==> title == name
    ensures |name| > TitleLimit ==> title == name[..TitleLimit] + Ellipsis && |title| == TitleLimit + |Ellipsis|
    ensures |title| <= TitleLimit + |Ellipsis|
    ensures title[..Min(TitleLimit, |name|)] == name[..Min(TitleLimit, |name|)]
  {
    if |name| > TitleLimit then name[..TitleLimit] + Ellipsis else name
  }

  /** Shortening an already shortened title changes nothing. */
  lemma DisplayTitleIdempotent(name: string)
    ensures DisplayTitle(DisplayTitle(name)) == DisplayTitle(name)
  {
  }

  datatype Padding = Padding(left: nat, right: nat)

  /** Even cards (left column) get padding on the right, odd cards on the left. */
  function CardPadding(index: nat): (p: Padding)
    ensures index % 2 == 0 ==> p == Padding(0, ColumnGap)
    ensures index % 2 == 1 ==> p == Padding(ColumnGap, 0)
    ensures p.left + p.right == ColumnGap
  {
    var isEven := index % 2 == 0;
    Padding(if isEven then 0 else ColumnGap, if isEven then ColumnGap else 0)
  }

  /** Neighbouring cards are padded as mirror images of each other. */
  lemma NeighbourPaddingsMirror(index: nat)
    ensures CardPadding(index + 1) == Padding(CardPadding(index).right, CardPadding(index).left)
  {
  }

  /** `hp(25)` or `hp(35)`. */
  datatype Height = Short | Tall

  /** Every third card, starting with the first, is short. */
  function CardHeight(index: nat): (h: Height)
    ensures h == Short <==> index % 3 == 0
  {
    if index % 3 == 0 then Short else Tall
  }

  lemma HeightsRepeatEveryThree(index: nat)
    ensures CardHeight(index + 3) == CardHeight(index)
  {
  }

  /** What one `RecipeCard` shows; pressing it opens the detail screen with `item`. */
  datatype Card = Card(title: string, thumb: string, padding: Padding, height: Height, item: MealSummary)

  function RecipeCard(item: MealSummary, index: nat): (c: Card)
    ensures c.item == item && c.thumb == item.strMealThumb
    ensures c.title == DisplayTitle(item.strMeal)
    ensures c.padding == CardPadding(index) && c.height == CardHeight(index)
    ensures c.padding.left + c.padding.right == ColumnGap
    ensures c.height == Short <==> index % 3 == 0
  {
    Card(DisplayTitle(item.strMeal), item.strMealThumb, CardPadding(index), CardHeight(index), item)
  }

  /** `Recipes`: one card per recipe, in list order, each given its position. */
  function Cards(recipes: seq<MealSummary>): (cards: seq<Card>)
    ensures |cards| == |recipes|
    ensures forall i :: 0 <= i < |recipes| ==> cards[i] == RecipeCard(recipes[i], i)
  {
    seq(|recipes|, i requires 0 <= i < |recipes| => RecipeCard(recipes[i], i))
  }
}
