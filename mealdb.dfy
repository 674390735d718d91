/** The records of the recipe API (TheMealDB) as the screens read them. */
module MealDb {

  /** One entry of `categories.php`. */
  datatype Category = Category(strCategory: string, strCategoryThumb: string)

  /** One entry of `filter.php`: what a recipe card shows and passes on to the detail screen. */
  datatype MealSummary = MealSummary(idMeal: string, strMeal: string, strMealThumb: string)

  /** One entry of `lookup.php`. The screen reads its numbered fields by computed name
      (`"strIngredient" + i`), so the record is kept as a map from field name to value;
      a field that is missing or `null` is absent from the map. */
  datatype Meal = Meal(fields: map<string, string>)
}
