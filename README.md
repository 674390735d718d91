# Food recipe app: a Dafny model of its logic

The app is a React Native recipe browser built on the public TheMealDB API.
Nearly all of it is network calls and layout. This project models the few
pieces of real logic, each in the form the JavaScript has:

- **`ImageCache`** (`src/helpers/image.js`) models the read-through image cache of `CachedImage`.
  - `Store` is the persistent key-value store (`AsyncStorage`), a class with a `map` field.
  - `CachedImage` is one mounted component. Its `cachedSource` is an `Option<string>` field, and `RunEffect` is the mount-time effect.
  - The effect's outcome is the pure `Resolve`, and lemmas relate several resolutions to each other.
  - The download and the `data:` URL encoding are one oracle input (`Download`). So are the rejections of `getItem` and `setItem` (`Environment`).
- **`RecipeDetailScreen`** covers three things:
  - `ingredientsIndicies` as a method with a loop.
  - `getYoutubeVideoId` as an explicit scan for the leftmost match of `[?&]v=([^&]+)`. It is only this ad-hoc scan, not a parser of URL query strings.
  - The screen's `isFavourite` / `mealData` / `loading` state as a class.
- **`Recipes`** covers the card rules:
  - the title is cut to 20 units plus `"..."`;
  - the padding depends on the index's parity;
  - the image is short or tall by `index % 3`;
  - there is one card per recipe.
- **`Categories`** covers one button per category: a button is highlighted exactly at `activeCategory` and gets that class string, and pressing it hands its own index to the handler.
- **`HomeScreen`** covers two things:
  - The state (`activeCategory`, `categories`, `recipes`) as a class with one method per event: categories answer, category press, recipes answer.
  - The render conditions, as `Render`.
- **`MealDb`** and **`Wrappers`** hold the API records and `Option` / `Result`.

Each network answer is a parameter of the method that handles it. Each outgoing request is returned as a value.

Three behaviours of the cache code are easy to miss; the model follows the code:

- A hit hands the stored `data:` URL string to the image component as its source. Nothing is decoded.
- A stored empty string is falsy and so counts as a miss, which is refetched and overwritten.
- `fetch` resolves for HTTP error statuses, so an error body is cached like an image (`ErrorResponseIsCached`).

## Model

| member | source | states |
|---|---|---|
| ImageCache.Resolve | src/helpers/image.js:12-30 | a truthy stored value is shown and nothing is written; a miss whose download and write succeed stores exactly the data URL under `uri` and shows it; a failed read, download or write changes nothing and shows nothing; any write is one entry under `uri` holding the shown string; a truthy entry is never overwritten |
| ImageCache.OtherKeysUntouched | src/helpers/image.js:12-25 | entries under keys other than `uri` are never added, removed or changed |
| ImageCache.EmptyEntryIsRefetched | src/helpers/image.js:13-26 | a stored empty string is a miss: it is downloaded again and replaced |
| ImageCache.WriteFailureShowsNothing | src/helpers/image.js:25-30 | if `setItem` rejects, the source stays null although the download succeeded |
| ImageCache.LaterResolutionsHit | src/helpers/image.js:12-26 | after a resolution showed a non-empty string, every later resolution of the same `uri` with a working read is a hit: same string, store unchanged, download ignored |
| ImageCache.FailureIsForgotten | src/helpers/image.js:16-30 | a failed resolution leaves no trace, so the next one behaves as if it had not happened (no negative caching) |
| ImageCache.ErrorResponseIsCached | src/helpers/image.js:16-26 | a response with an HTTP error status is stored and served from then on like an image |
| ImageCache.Store.GetItem | src/helpers/image.js:12 | returns the stored value, `None` for an absent key, or a rejection |
| ImageCache.Store.SetItem | src/helpers/image.js:25 | writes exactly one entry, or rejects and writes nothing |
| ImageCache.CachedImage.Mount | src/helpers/image.js:5-7 | a mounted image keeps the mount-time `uri`, shows nothing and has not run its effect |
| ImageCache.CachedImage.RunEffect | src/helpers/image.js:9-32 | runs once per mount; afterwards the store and `cachedSource` are exactly `Resolve` of the old store, the mount-time `uri` and the environment |
| ImageCache.RemountIsServedFromStore | src/helpers/image.js:9-32 | a second image mounted with the same `uri` shows the same string as the first and needs no download |
| RecipeDetailScreen.IngredientIndices | src/screens/RecipeDetailScreen.js:48-58 | empty when `mealData` is null; strictly increasing values in 1..20, so at most 20 of them; i is listed iff `strIngredient<i>` is present and non-empty |
| RecipeDetailScreen.FirstMatch | src/screens/RecipeDetailScreen.js:61-62 | returns the leftmost position from `from` where `?v=` or `&v=` is followed by a non-`&`, or `None` when there is none |
| RecipeDetailScreen.RunEnd | src/screens/RecipeDetailScreen.js:61 | the greedy `[^&]+` run stops at the first `&` or at the end |
| RecipeDetailScreen.YoutubeVideoId | src/screens/RecipeDetailScreen.js:60-64 | null exactly when the pattern matches nowhere; otherwise the id is non-empty and contains no `&` |
| RecipeDetailScreen.VideoIdAtLeftmostMatch | src/screens/RecipeDetailScreen.js:61-63 | the id is the whole run of non-`&` characters after the leftmost match's `v=` |
| RecipeDetailScreen.WatchLinkExample | src/screens/RecipeDetailScreen.js:60-64 | the id of a watch link stops at the next `&` parameter |
| RecipeDetailScreen.LaterParameterExample | src/screens/RecipeDetailScreen.js:60-64 | `&v=` matches too, and a `v=` with an empty value is skipped |
| RecipeDetailScreen.InstructionsAsWritten | src/screens/RecipeDetailScreen.js:298-300 | reading `mealData.strInstructions` throws exactly when `mealData` is null |
| RecipeDetailScreen.Instructions | src/screens/RecipeDetailScreen.js:299 | the optional-chained reading yields the field when the meal has it and nothing otherwise |
| RecipeDetailScreen.InstructionsAgreeWhenLoaded | src/screens/RecipeDetailScreen.js:298-300 | once a meal is loaded, the written and the corrected reading agree |
| RecipeDetailScreen.DetailScreen.Open | src/screens/RecipeDetailScreen.js:23-28 | `isFavourite` starts false, `mealData` null, `loading` true |
| RecipeDetailScreen.DetailScreen.ToggleFavourite | src/screens/RecipeDetailScreen.js:101-103 | the heart press negates `isFavourite` and changes nothing else |
| RecipeDetailScreen.DetailScreen.LookupFinished | src/screens/RecipeDetailScreen.js:30-46 | `loading` becomes false on success and failure alike; `mealData` becomes `meals[0]` (nothing for an empty list) only when the body carries `meals`, else it stays |
| RecipeDetailScreen.PressHeartTwice | src/screens/RecipeDetailScreen.js:103 | two heart presses restore the original value |
| RecipeDetailScreen.FailedLookupBreaksRender | src/screens/RecipeDetailScreen.js:30-46 | after a failed lookup the screen stops loading with no meal, and the instructions as written throw |
| Recipes.DisplayTitle | src/components/Recipes.js:41-43 | names of at most 20 units are unchanged; longer ones become their first 20 units plus `"..."`, 23 units; never longer than 23 and always starting with the name's first min(20, len) units |
| Recipes.DisplayTitleIdempotent | src/components/Recipes.js:41-43 | shortening twice equals shortening once |
| Recipes.CardPadding | src/components/Recipes.js:10-22 | even index: left 0, right 8; odd index: left 8, right 0; the two always sum to 8 |
| Recipes.NeighbourPaddingsMirror | src/components/Recipes.js:10-22 | neighbouring cards have mirrored paddings |
| Recipes.CardHeight | src/components/Recipes.js:31 | a card is short exactly when `index % 3 == 0` |
| Recipes.HeightsRepeatEveryThree | src/components/Recipes.js:31 | the short/tall pattern repeats every three cards |
| Recipes.RecipeCard | src/components/Recipes.js:9-48 | a card shows the shortened title and the thumbnail, carries its item to the detail screen, is padded on the side its index's parity picks and is short or tall by `index % 3` |
| Recipes.Cards | src/components/Recipes.js:61-68 | one card per recipe, in list order, card i built at index i |
| Categories.CategoryButton | src/components/Categories.js:17-26 | the button is active iff its index equals `activeCategory`; its wrapper class is `"rounded-full p-[6px] "` plus `"bg-amber-400"` if active and `"bg-black/10"` if not; pressing it passes its own index |
| Categories.Buttons | src/components/Categories.js:17-38 | one button per category, in list order, button i built from category i |
| Categories.ActiveCountAtPosition | src/components/Categories.js:18 | buttons active exactly at position a hold one active button if a is a position of the list and none otherwise |
| Categories.ActiveButtons | src/components/Categories.js:17-19 | exactly one button is active when 0 <= `activeCategory` < the number of categories, none otherwise |
| Categories.AtMostOneActive | src/components/Categories.js:18 | two active buttons are the same button |
| HomeScreen.CategoryAt | src/screens/HomeScreen.js:33 | `categories[i]?.strCategory` is the name of category i when i is a position of the list and undefined otherwise |
| HomeScreen.Render | src/screens/HomeScreen.js:104-122 | the category strip is shown iff there are categories, with button i active iff i is `activeCategory`; the spinner is shown iff there are no recipes, else one card per recipe |
| HomeScreen.ChosenCategoryIsOnlyHighlight | src/screens/HomeScreen.js:104-112 | after a listed category is chosen, the strip has exactly one active button, the chosen one |
| HomeScreen.Home.Mount | src/screens/HomeScreen.js:12-14 | the initial state is `activeCategory` 0, no categories, no recipes |
| HomeScreen.Home.CategoriesLoaded | src/screens/HomeScreen.js:16-30 | a truthy body stores the category list and requests the recipes of the category at the mount-time index 0; otherwise nothing changes and nothing is requested |
| HomeScreen.Home.ChangeCategory | src/screens/HomeScreen.js:32-35 | selecting i sets `activeCategory` to i and requests category i's name, undefined when i is out of range; the lists are untouched |
| HomeScreen.Home.RecipesLoaded | src/screens/HomeScreen.js:37-50 | only a body carrying `meals` replaces `recipes`; a missing list or a rejection leaves them |
| HomeScreen.BrowseSession | src/screens/HomeScreen.js:16-50 | from mount: the first request names the first category, and after a pick of a listed category exactly that button is highlighted while the earlier recipes stay shown |

## Left out

- HTTP requests (`axios.get`, `fetch`) are not modelled as behaviour. Their answers or rejections are parameters of the methods that handle them, and the requests a handler sends are returned as values. The lookup request's `idMeal` parameter is not modelled.
- `FileReader.readAsDataURL` is an opaque step folded into `Download`. The code sets only `onload`, so a read error leaves the promise pending forever. The model records this as a failed download: the store and the source end the same, but in the app the effect never finishes.
- Concurrency is not modelled: only sequential event orders are. This leaves out recipe answers arriving out of order after quick category changes, and two images racing on the same key.
- React hook semantics are out: `useEffect` is modelled only as "runs once per mount" (`effectRan`), and `useCallback` memoisation not at all.
- Screen-relative sizes (`hp`, `wp`) are floating point: the image height is kept as `Short` / `Tall`. Animation timings are left out too.
- Styling other than the active/inactive class string is left out. So are the back and navigation buttons and `console.log` / `console.error`.
- `src/navigation/index.js` is stack wiring with no logic and is not part of this model.
- The rest of the detail render is not modelled: name, area, the measure/ingredient rows and the video player. Only the instructions read, where it throws, is.
- HomeScreen.Home.CategoriesLoaded: a truthy body without a `categories` array is not modelled. The code would store `undefined` and the next render would throw.
- Recipes.DisplayTitle: a Dafny `char` is one UTF-16 code unit only inside the Basic Multilingual Plane. A name with characters outside it is counted per character, not per surrogate half as JavaScript's `length` and `slice` count it.

## Findings

| source | as written | input that shows it | evidently intended | confidence | as-written member | corrected member |
|---|---|---|---|---|---|---|
| src/screens/RecipeDetailScreen.js:299 | `mealData.strInstructions` is read without optional chaining once `loading` is false | the lookup request rejects, or answers `meals: []`; `loading` becomes false while `mealData` stays null, and the render throws a TypeError | `mealData?.strInstructions`, as the name and area are read on lines 127 and 133 | high; not executed | RecipeDetailScreen.FailedLookupBreaksRender | RecipeDetailScreen.Instructions |
