/** The home screen (src/screens/HomeScreen.js): the selected category, the
    category list and the recipe list, the events that change them, and which
    parts of the screen they make visible. Every network answer is an input. */
module HomeScreen {
  import opened Wrappers
  import opened MealDb
  import Recipes
  import Categories

  /** The mount-time effect reads `activeCategory` through the closure of the
      first render, where it is still the initial 0. */
  const MountActiveCategory: int := 0

  /** The answer to `categories.php`: `data` is the category list, `None` for a
      falsy body; or a rejected request. */
  datatype CategoriesResponse = CategoriesAnswered(data: Option<seq<Category>>) | CategoriesFailed

  /** The answer to `filter.php`: a body whose `meals` is a list or is
      missing / null (a null body is the same as a missing list), or a
      rejected request. */
  datatype RecipesResponse = RecipesAnswered(meals: Option<seq<MealSummary>>) | RecipesFailed

  /** The argument of `getRecipes`: `categories[i]?.strCategory`, which is
      `undefined` (`None`) when `i` is not a position of the list. */
  function CategoryAt(categories: seq<Category>, i: int): (name: Option<string>)
    ensures name.Some? <==> 0 <= i < |categories|
    ensures name.Some? ==> name.value == categories[i].strCategory
  {
    if 0 <= i < |categories| then Some(categories[i].strCategory) else None
  }

  /** Below the category strip: the spinner, or the recipe grid. */
  datatype Body = LoadingIndicator | RecipeGrid(cards: seq<Recipes.Card>)

  /** The parts of the screen that depend on state. */
  datatype HomeView = HomeView(strip: Option<seq<Categories.Button>>, body: Body)

  /** The render conditions: the strip only when there are categories, the
      spinner exactly when there are no recipes. */
  function Render(activeCategory: int, categories: seq<Category>, recipes: seq<MealSummary>): (v: HomeView)
    ensures v.strip.Some? <==> |categories| > 0
    ensures v.strip.Some? ==> |v.strip.value| == |categories|
    ensures v.strip.Some? ==> forall i :: 0 <= i < |categories| ==>
              (v.strip.value[i].active <==> i == activeCategory) && v.strip.value[i].pressArgument == i
    ensures v.body == LoadingIndicator <==> |recipes| == 0
    ensures v.body.RecipeGrid? ==> |v.body.cards| == |recipes|
    ensures v.body.RecipeGrid? ==> forall i :: 0 <= i < |recipes| ==>
              v.body.cards[i].item == recipes[i] && v.body.cards[i].title == Recipes.DisplayTitle(recipes[i].strMeal)
  {
    HomeView(
      if |categories| > 0 then Some(Categories.Buttons(categories, activeCategory)) else None,
      if |recipes| > 0 then RecipeGrid(Recipes.Cards(recipes)) else LoadingIndicator)
  }

  /** After choosing a listed category, the strip shows exactly one
      highlighted button, the chosen one. */
  lemma ChosenCategoryIsOnlyHighlight(categories: seq<Category>, i: int, recipes: seq<MealSummary>)
    requires 0 <= i < |categories|
    ensures Render(i, categories, recipes).strip.Some?
    ensures Categories.ActiveCount(Render(i, categories, recipes).strip.value) == 1
    ensures Render(i, categories, recipes).strip.value[i].active
  {
    Categories.ActiveButtons(categories, i);
  }

  class Home {
    var activeCategory: int
    var categories: seq<Category>
    var recipes: seq<MealSummary>

    constructor Mount()
      ensures activeCategory == MountActiveCategory && categories == [] && recipes == []
    {
      activeCategory := MountActiveCategory;
      categories := [];
      recipes := [];
    }

    /** The end of the mount-time category request. A truthy body stores the
        list and asks for the recipes of the category at position 0; the
        request sent, if any, is returned (its `Some(None)` is a request
        with an undefined category). */
    method CategoriesLoaded(response: CategoriesResponse) returns (request: Option<Option<string>>)
      modifies this
      ensures activeCategory == old(activeCategory) && recipes == old(recipes)
      ensures response.CategoriesAnswered? && response.data.Some? ==>
                categories == response.data.value
                && request == Some(CategoryAt(response.data.value, MountActiveCategory))
      ensures !(response.CategoriesAnswered? && response.data.Some?) ==>
                categories == old(categories) && request == None
    {
      request := None;
      if response.CategoriesAnswered? && response.data.Some? {
        categories := response.data.value;
        request := Some(CategoryAt(categories, MountActiveCategory));
      }
    }

    /** `handleChangeCategory(i)`: ask for the recipes of category `i` and
        select it; the recipes stay until the answer arrives. */
    method ChangeCategory(i: int) returns (request: Option<string>)
      modifies this
      ensures request == CategoryAt(old(categories), i)
      ensures activeCategory == i
      ensures categories == old(categories) && recipes == old(recipes)
    {
      request := CategoryAt(categories, i);
      activeCategory := i;
    }

    /** The end of a `getRecipes` request: only a body with a `meals` list
        replaces the recipes. */
    method RecipesLoaded(response: RecipesResponse)
      modifies this
      ensures activeCategory == old(activeCategory) && categories == old(categories)
      ensures response.RecipesAnswered? && response.meals.Some? ==> recipes == response.meals.value
      ensures !(response.RecipesAnswered? && response.meals.Some?) ==> recipes == old(recipes)
    {
      if response.RecipesAnswered? && response.meals.Some? {
        recipes := response.meals.value;
      }
    }

    /** What the screen currently shows. */
    function View(): HomeView
      reads this
    {
      Render(activeCategory, categories, recipes)
    }
  }

  /** A session from mount: the categories arrive, the recipes of the first
      arrive, then the user picks category `i`. The first request names the
      first category; the pick highlights exactly button `i` while the old
      recipes are still shown. */
  method BrowseSession(cats: seq<Category>, firstMeals: seq<MealSummary>, i: int)
      returns (home: Home, first: Option<Option<string>>, second: Option<string>)
    requires 0 <= i < |cats| && |firstMeals| > 0
    ensures first == Some(Some(cats[0].strCategory))
    ensures second == Some(cats[i].strCategory)
    ensures home.View().strip.Some? && Categories.ActiveCount(home.View().strip.value) == 1
    ensures |home.View().strip.value| == |cats| && home.View().strip.value[i].active
    ensures home.View().body == RecipeGrid(Recipes.Cards(firstMeals))
  {
    home := new Home.Mount();
    first := home.CategoriesLoaded(CategoriesAnswered(Some(cats)));
    home.RecipesLoaded(RecipesAnswered(Some(firstMeals)));
    second := home.ChangeCategory(i);
    ChosenCategoryIsOnlyHighlight(cats, i, firstMeals);
  }
}
