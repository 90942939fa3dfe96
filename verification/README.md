# Delicious Private Chef — a verified model of the app's logic

The app is an Angular front end over Google's Gemini and Imagen APIs. On the
home page a user asks for a menu, either a random one or a single named dish.
They open a dish to see its recipe, scale its ingredients, tick off steps and
copy a shopping list. Recently opened dishes and favourites are kept in
`localStorage`.

This project models the logic of that app in Dafny:

- the history and favourites services;
- the ingredient and step components;
- the response handling of the AI service;
- the two page controllers.

It proves properties of that model.

| file | models |
|---|---|
| `wrappers.dfy` | `Option` (a value or `undefined`), `Outcome` (what an awaited promise settles to) |
| `models.dfy` | the records of `src/models.ts` |
| `js_text.dfy` | `trim`, global literal `replace`, `indexOf`, first-occurrence `replace` |
| `js_number.dfy` | `parseFloat` on digit text, division by zero, `Math.round(x*100)/100`, `toString` |
| `storage.dfy` | `localStorage` as a string map that may refuse writes; the shared load step |
| `history.dfy` | `HistoryService` |
| `favorites.dfy` | `FavoriteService` |
| `checklist.dfy` | the copy-and-toggle of a `Set` shared by two components |
| `steps.dfy` | `StepsComponent` |
| `ingredients.dfy` | `IngredientsComponent`: the leftmost number or fraction token, scaling, the checklist, the shopping list |
| `ai.dfy` | `AiService.cleanJson` and the checks after each SDK call |
| `js_value.dfy` | JavaScript values carried as navigation state; `isMenuItem`, `isRecipe` |
| `recipe_detail.dfy` | `RecipeDetailComponent` |
| `home.dfy` | `HomeComponent` |

Each service and component is a class whose fields are its signals. Each
method states the whole new state. An awaited call is split into two methods:

1. The first starts the call and records it in a request log.
2. The second applies the call's outcome once it has settled.

The SDK itself is not modelled. A call is represented by the reply it settled to.

`addRecord` (`src/services/history.service.ts:28`) keeps 10 entries and does
not de-duplicate. `History.AddedKeepsDuplicates` proves that a repeated dish
is stored twice.

## Model

| member | source | states |
|---|---|---|
| `History.Added` | src/services/history.service.ts:28 | the new history is the record followed by the first min(9, n) old entries; its length is min(10, n+1) and element 0 is the record |
| `History.AddedKeepsDuplicates` | src/services/history.service.ts:28 | below the cap, adding a record raises the count of its id by exactly one (no de-duplication) |
| `History.AddedTwiceBelowCap` | src/services/history.service.ts:28 | below the cap, re-adding a dish already at position i leaves it at positions 0 and i+1 |
| `History.AddedAllNewestFirst` | src/services/history.service.ts:26-32 | a run of additions leaves the added records newest first, followed by the older list, cut to 10 |
| `History.TenAdditionsForgetStored` | src/services/history.service.ts:28 | after ten or more additions nothing from the loaded list remains |
| `History.HistoryService.constructor` | src/services/history.service.ts:11-24 | the history is what the load step makes of the stored text |
| `History.HistoryService.AddRecord` | src/services/history.service.ts:26-40 | the history becomes `Added(old, record)`; the store holds exactly that list, serialized, unless it refuses writes |
| `History.HistoryService.GetHistory` | src/services/history.service.ts:42-44 | returns the current list and changes nothing |
| `Storage.LoadList` | src/services/history.service.ts:15-24 | absent or empty stored text, and text that fails to parse, give the empty list; otherwise the parsed list |
| `Storage.LocalStorage.GetItem` | src/services/history.service.ts:17 | `getItem` is present exactly when the key is stored, with the stored text |
| `Storage.LocalStorage.SetItem` | src/services/history.service.ts:34-40 | a write updates only that key, and a refused write changes nothing |
| `Favorites.RemoveId` | src/services/favorite.service.ts:31 | `filter` leaves no entry with the id, keeps only old entries, and changes nothing when the id is absent |
| `Favorites.HasId` | src/services/favorite.service.ts:28-41 | `some(r => r.id === id)`: some entry has the id; `HasIdSplit` proves it holds for a non-empty list exactly when the head or the tail has the id, and `RemoveId` and `Toggled` state their results through it |
| `Favorites.RemoveIdKeepsOthers` | src/services/favorite.service.ts:31 | every entry with another id keeps its number of occurrences |
| `Favorites.RemoveIdAppend` | src/services/favorite.service.ts:31 | removal distributes over concatenation, so the kept entries keep their relative order |
| `Favorites.Toggled` | src/services/favorite.service.ts:28-34 | the id's membership flips; an absent record is put in front (length + 1, no cap); a present one shrinks the list |
| `Favorites.ToggledPresentKeepsOthers` | src/services/favorite.service.ts:28-31 | toggling a present id gives the old list with that id filtered out, and every entry with another id keeps its number of occurrences |
| `Favorites.ToggleTwiceRestores` | src/services/favorite.service.ts:26-38 | toggling an absent record twice restores the list exactly |
| `Favorites.RemoveIdKeepsUnique` | src/services/favorite.service.ts:31 | filtering keeps ids unique |
| `Favorites.ToggledKeepsUnique` | src/services/favorite.service.ts:28-34 | if ids are unique before a toggle, they are unique after it |
| `Favorites.FavoriteService.constructor` | src/services/favorite.service.ts:11-24 | the favourites are what the load step makes of the stored text |
| `Favorites.FavoriteService.ToggleFavorite` | src/services/favorite.service.ts:26-50 | the list becomes `Toggled(old, record)`; the store holds exactly that list, serialized, unless it refuses writes |
| `Favorites.FavoriteService.IsFavorite` | src/services/favorite.service.ts:40-42 | true exactly when some entry has the id |
| `Checklist.Flip` | src/components/steps.component.ts:71-76 | the key changes membership, every other key keeps it |
| `Checklist.FlipTwice` | src/components/ingredients.component.ts:117-122 | toggling the same key twice gives back the set |
| `Steps.StepsComponent.constructor` | src/components/steps.component.ts:68-69 | no step is marked done at first |
| `Steps.StepsComponent.ToggleStep` | src/components/steps.component.ts:71-77 | the step number flips membership, the others keep theirs, the steps are untouched |
| `Steps.ToggleStepTwice` | src/components/steps.component.ts:71-77 | two toggles of one number restore the completed set |
| `JsText.Trim` | src/services/ai.service.ts:27 | the result is a slice of the text with only white space cut from either end, and starts and ends with non-white space |
| `JsText.TrimTrimmed` | src/pages/home.component.ts:200 | trimming text that is already trimmed changes nothing |
| `JsText.RemoveAll` | src/services/ai.service.ts:27 | the result is never longer than the text |
| `JsText.RemoveAllAbsent` | src/services/ai.service.ts:27 | removing a pattern that does not occur leaves the text unchanged |
| `JsText.IndexOf` | src/components/ingredients.component.ts:106 | the leftmost occurrence at or after the start, or none at all |
| `JsText.ReplaceFirst` | src/components/ingredients.component.ts:106 | text without an occurrence of the pattern is returned as it is; otherwise the leftmost occurrence, the one with no occurrence before it, is replaced and the text around it is kept |
| `JsNumber.ParseFloat` | src/components/ingredients.component.ts:97-99 | non-negative and finite, or NaN exactly when the text starts with neither a digit nor a point followed by a digit |
| `JsNumber.Quotient` | src/components/ingredients.component.ts:97 | NaN when either operand is NaN; a zero divisor gives NaN for 0/0 and an infinity of the dividend's sign otherwise; a non-zero finite divisor gives the finite quotient |
| `JsNumber.Times` | src/components/ingredients.component.ts:102 | NaN stays NaN; a positive factor keeps a value finite, NaN or infinite of the same sign; a finite value is multiplied; an infinity times 0 is NaN |
| `JsNumber.RoundHundredths` | src/components/ingredients.component.ts:103 | the whole number of hundredths within half a unit, halves rounded up |
| `JsNumber.NatToString` | src/components/ingredients.component.ts:103 | decimal digits, no leading zero, reading back as the number |
| `JsNumber.FormatRounded` | src/components/ingredients.component.ts:103 | `Math.round(x*100)/100` then `toString`; `ParseFormattedRoundTrip` proves that a non-negative result parses back to the rounded value |
| `JsNumber.TrimZeros` | src/components/ingredients.component.ts:104-105 | the two `replace` calls that drop a trailing ".00" or ".0"; `TrimZerosKeepsFormatted` proves they never change a formatted amount |
| `JsNumber.TrimZerosKeepsFormatted` | src/components/ingredients.component.ts:103-105 | `toString` never ends in ".0" or ".00", so both trimming steps leave every formatted amount unchanged |
| `JsNumber.ParseFormattedRoundTrip` | src/components/ingredients.component.ts:97-103 | parsing a formatted non-negative amount gives back the rounded value |
| `Ingredients.MatchAt` | src/components/ingredients.component.ts:91 | a match starts at a position exactly when the regular expression can start a token there; it ends after the start |
| `Ingredients.FindToken` | src/components/ingredients.component.ts:91 | the leftmost token: no token starts before it, and none at all when there is no result |
| `Ingredients.NoDigitNoToken` | src/components/ingredients.component.ts:91-92 | text without a digit has no token |
| `Ingredients.FirstOccurrenceIsMatch` | src/components/ingredients.component.ts:91-106 | the first occurrence of the matched text is the match itself, so `replace` rewrites the matched token |
| `Ingredients.FractionTokenShape` | src/components/ingredients.component.ts:91 | a match by the first alternative is a non-empty digit run, a slash and a non-empty digit run |
| `Ingredients.DecimalTokenShape` | src/components/ingredients.component.ts:91 | a match by the second alternative is a digit run alone, or a digit run, a point and a non-empty digit run |
| `Ingredients.FractionTextValue` | src/components/ingredients.component.ts:95-97 | digits, a slash and digits are valued as the quotient of the two digit values (`split('/')` then two `parseFloat`s) |
| `Ingredients.WholeTextValue` | src/components/ingredients.component.ts:99 | a plain digit run is valued as its digits |
| `Ingredients.PointTextValue` | src/components/ingredients.component.ts:99 | digits, a point and digits are valued as the whole digits plus the fraction digits over a power of ten, with or without whole digits |
| `Ingredients.TokenValue` | src/components/ingredients.component.ts:95-100 | a token with a slash is valued as the quotient of the `parseFloat`s of its two parts, any other as its `parseFloat`; `FractionTextValue`, `WholeTextValue` and `PointTextValue` give the value of each token shape |
| `Ingredients.NewAmountText` | src/components/ingredients.component.ts:95-105 | no new text exactly when the token's value is NaN; otherwise the printed scaled value, and for a finite non-negative result that text parses back to the value rounded to hundredths; a positive scale of an infinite value prints "Infinity" |
| `Ingredients.RewriteToken` | src/components/ingredients.component.ts:91-106 | `match` then `replace` for any rewriting of the token text; `RewriteTokenSplices` proves it rewrites only the leftmost token and keeps the text around it |
| `Ingredients.ScaleAmount` | src/components/ingredients.component.ts:90-109 | the amount after scaling; `ScaleAmountSplices` and `ScaleAmountWithoutDigits` state its result |
| `Ingredients.RewriteTokenSplices` | src/components/ingredients.component.ts:91-106 | for any rewriting of the token text: no token or no new text keeps the amount; otherwise the amount is the text before the leftmost token, the new text and the text after it |
| `Ingredients.ScaleAmountSplices` | src/components/ingredients.component.ts:90-109 | only the leftmost token is rewritten, into `NewAmountText` of it; the text before and after it is kept; a NaN value leaves the amount unchanged |
| `Ingredients.ScaleAmountWithoutDigits` | src/components/ingredients.component.ts:91-109 | an amount without digits, such as "适量", passes through unchanged |
| `Ingredients.ScaleGramsExample` | src/components/ingredients.component.ts:89-110 | "200g" for 4 servings reads "100g" for 2 |
| `Ingredients.ScaleFractionExample` | src/components/ingredients.component.ts:89-110 | "1/2 杯" for 4 servings reads "0.75 杯" for 6 |
| `Ingredients.EffectiveBase` | src/components/ingredients.component.ts:85 | a base of 0 is taken as 4; any other base is kept |
| `Ingredients.ScaleIngredient` | src/components/ingredients.component.ts:106 | name, note and substitute are kept, and the amount is the scaled amount `ScaleAmount(amount, scale)` |
| `Ingredients.ScaledIngredients` | src/components/ingredients.component.ts:84-111 | same length and order; the input list itself when servings equal the base; otherwise only each amount is rescaled by servings/base |
| `Ingredients.CheckedLinesAppend` | src/components/ingredients.component.ts:126-128 | the lines follow the list's order |
| `Ingredients.CheckedLinesMembers` | src/components/ingredients.component.ts:126-128 | a line is in the list exactly when some checked ingredient renders as it |
| `Ingredients.Line` | src/components/ingredients.component.ts:128 | `${name}: ${amount}`, the line of one ingredient, as used by `CheckedLinesMembers` |
| `Ingredients.CheckedLines` | src/components/ingredients.component.ts:127-128 | never more lines than ingredients; `CheckedLinesAppend` and `CheckedLinesMembers` state its order and its members |
| `Ingredients.Join` | src/components/ingredients.component.ts:129 | `join`; `SplitJoinedLines` proves lines without breaks are recovered by splitting at "\n" |
| `Ingredients.ShoppingListText` | src/components/ingredients.component.ts:126-129 | the checked lines of the list joined by "\n"; `CopyToClipboard` returns it |
| `Ingredients.SplitJoinedLines` | src/components/ingredients.component.ts:129 | joining lines without line breaks by "\n" can be split back into the same lines |
| `Ingredients.IngredientsComponent.constructor` | src/components/ingredients.component.ts:77-81 | servings start at 4 and nothing is checked |
| `Ingredients.IngredientsComponent.Scaled` | src/components/ingredients.component.ts:84-111 | the `scaledIngredients` signal, `ScaledIngredients` of the current fields, whose contract states it |
| `Ingredients.IngredientsComponent.SetServings` | src/components/ingredients.component.ts:113-115 | only the servings change |
| `Ingredients.IngredientsComponent.ToggleCheck` | src/components/ingredients.component.ts:117-123 | only that name changes membership |
| `Ingredients.IngredientsComponent.CopyToClipboard` | src/components/ingredients.component.ts:125-129 | the text is the checked lines of the scaled list joined by "\n" |
| `Ai.CleanJson` | src/services/ai.service.ts:26-28 | the cleaned text contains no "```" and has no leading or trailing white space |
| `Ai.StripFenceLeavesNone` | src/services/ai.service.ts:27 | removing fences from left to right never joins leftover backticks into a new fence |
| `Ai.CleanJsonIdempotent` | src/services/ai.service.ts:26-28 | cleaning twice is cleaning once |
| `Ai.CleanJsonKeepsPlain` | src/services/ai.service.ts:27 | text with no backtick and no surrounding white space is passed on unchanged |
| `Ai.CleanJsonFencedExample` | src/services/ai.service.ts:26-28 | a fenced reply is reduced to the JSON inside the fence |
| `Ai.ParsedReply` | src/services/ai.service.ts:57-71 | timeouts and SDK failures reject with their messages; absent or empty text rejects as empty; non-empty text gives the parse of its cleaned form, success or failure |
| `Ai.MenuResult` | src/services/ai.service.ts:57-71 | the menu call's timeout and empty-response errors; a failed call rejects with its message; a non-empty reply gives the parse of its cleaned text |
| `Ai.RecipeResult` | src/services/ai.service.ts:114-128 | the recipe call's timeout and empty-response errors; a failed call rejects with its message; a non-empty reply gives the parse of its cleaned text |
| `Ai.FirstImageBytes` | src/services/ai.service.ts:144 | the optional chain yields bytes exactly when every link is present |
| `Ai.ImageResult` | src/services/ai.service.ts:131-155 | success exactly for non-empty bytes, as the data-URI prefix followed by the bytes; every failure is the one "Image generation failed" error |
| `JsValue.StateField` | src/pages/recipe-detail.component.ts:43-44 | the property of an object state, and `undefined` for anything else |
| `JsValue.IsMenuItem` | src/pages/recipe-detail.component.ts:81-83 | true exactly for an object with string `id` and string `title` |
| `JsValue.IsRecipe` | src/pages/recipe-detail.component.ts:85-87 | true exactly for an object with a string `id` and an array `steps` |
| `JsValue.MenuItemOf` | src/pages/recipe-detail.component.ts:46-47 | an accepted item keeps the value's `id` and `title` |
| `JsValue.RecipeOf` | src/pages/recipe-detail.component.ts:50-52 | an accepted recipe keeps the value's `id` and has one step per array element |
| `JsValue.MenuItemRoundTrip` | src/pages/home.component.ts:230-233 | an item carried in navigation state passes `isMenuItem` and reads back as itself |
| `JsValue.MenuItemIsNoRecipe` | src/pages/recipe-detail.component.ts:85-87 | a carried menu item never passes `isRecipe`, because it has no `steps` |
| `JsValue.RecipeRoundTrip` | src/pages/home.component.ts:230-234 | a recipe carried in navigation state passes `isRecipe` and reads back as itself |
| `RecipeDetail.SlotOf` | src/pages/recipe-detail.component.ts:48 | an item without `imageUrl` puts the image signal in its loading state |
| `RecipeDetail.FindById` | src/pages/recipe-detail.component.ts:69 | `find` gives the first entry with the id, and a result exactly when one exists |
| `RecipeDetail.RecipeDetailComponent.Lookup` | src/pages/recipe-detail.component.ts:69 | history is searched first, then favourites: the first history entry with the id when there is one, otherwise the first favourite with it; found exactly when either holds the id |
| `RecipeDetail.RecipeDetailComponent.constructor` | src/pages/recipe-detail.component.ts:32-37 | no item, no recipe, image `null`, loading, no error |
| `RecipeDetail.RecipeDetailComponent.HandleError` | src/pages/recipe-detail.component.ts:89-92 | the error is shown and loading stops; nothing else changes |
| `RecipeDetail.RecipeDetailComponent.GenerateImage` | src/pages/recipe-detail.component.ts:117-120 | the image shows as loading and is requested with the prompt |
| `RecipeDetail.RecipeDetailComponent.ImageArrived` | src/pages/recipe-detail.component.ts:119-125 | the URL on success, `null` on any failure |
| `RecipeDetail.RecipeDetailComponent.LoadRecipe` | src/pages/recipe-detail.component.ts:94-99 | loading starts, the error clears, a forced reload drops the recipe, and the recipe is requested |
| `RecipeDetail.RecipeDetailComponent.RecipeArrived` | src/pages/recipe-detail.component.ts:101-115 | success shows the recipe and requests an image exactly when there is none or the load is forced; failure shows the message or the default; loading stops on both paths and an error never coexists with loading |
| `RecipeDetail.RecipeDetailComponent.NgOnInit` | src/pages/recipe-detail.component.ts:39-79 | the three cases: item and recipe are shown at once, with an image requested only when the item has none; an item alone loads its recipe; no state looks the route id up, and a missing or unknown id is an error |
| `RecipeDetail.RecipeDetailComponent.Regenerate` | src/pages/recipe-detail.component.ts:127-131 | a forced reload of the shown item's recipe; nothing without an item |
| `RecipeDetail.RecipeDetailComponent.ToggleFavorite` | src/pages/recipe-detail.component.ts:133-137 | toggles the shown item in the favourites, and the store then holds the new list serialized unless it refuses writes; nothing changes without an item |
| `RecipeDetail.RecipeDetailComponent.IsFavorite` | src/pages/recipe-detail.component.ts:139-141 | false without an item, otherwise whether its id is a favourite |
| `Home.PromptTextQuotesDish` | src/pages/home.component.ts:206-207 | the single-dish prompt opens with its fixed lead and quotes the dish name right after it |
| `Home.PromptTextNamesDish` | src/pages/home.component.ts:207 | two dish names give the same prompt only when they are the same name |
| `Home.Preferences` | src/pages/home.component.ts:201 | the preferences sentence of the form's four choices; `PromptTextQuotesDish` and `PromptTextNamesDish` state the prompts built from it |
| `Home.MenuRequestFor` | src/pages/home.component.ts:200-218 | a non-empty trimmed name asks for that single dish, an empty one for a random menu; `Generate` records the request it makes |
| `Home.PromptText` | src/pages/home.component.ts:206-218 | the prompt text of a request; `PromptTextQuotesDish` and `PromptTextNamesDish` state where the dish name sits and that it determines the prompt |
| `Home.DetailState` | src/pages/home.component.ts:230-235 | the navigation state of an item, with the recipe or without; `DetailStateWithRecipe` and `DetailStateWithoutRecipe` prove the detail page reads both back |
| `Home.DetailStateWithRecipe` | src/pages/home.component.ts:229-235 | after a single-dish generation the detail page finds the same item and recipe in the state (its first case) |
| `Home.DetailStateWithoutRecipe` | src/pages/home.component.ts:266-269 | after `viewRecipe` the detail page finds the same item and no recipe (its second case) |
| `Home.MarkedGenerating` | src/pages/home.component.ts:241-253 | every item is marked "generating" and nothing else about it changes |
| `Home.ImageRequests` | src/pages/home.component.ts:241-243 | one image request per item, in item order, with that item's prompt |
| `Home.HomeComponent.constructor` | src/pages/home.component.ts:170-185 | the form's default choices; not loading, no error, no menu |
| `Home.HomeComponent.Generate` | src/pages/home.component.ts:193-221 | nothing happens while loading; otherwise loading starts, error and menu clear, and the menu is requested for the trimmed dish name with the form's choices (single dish if non-empty, random otherwise); the dish name, the form and the generation are unchanged |
| `Home.HomeComponent.GenerateRandom` | src/pages/home.component.ts:187-191 | nothing happens while loading; otherwise the dish name is cleared and the random menu is requested with the form's choices; the form and the generation are unchanged |
| `Home.HomeComponent.GenerateImageForItem` | src/pages/home.component.ts:252-254 | the item at that index is marked "generating" and its image is requested with its prompt under the current generation; every other item and field is unchanged |
| `Home.HomeComponent.StartImages` | src/pages/home.component.ts:241-254 | the loop marks every item "generating" and requests its image, in order |
| `Home.HomeComponent.MenuArrived` | src/pages/home.component.ts:220-249 | one item for a named dish goes on to fetch its recipe without setting the menu; otherwise the menu is shown with all images started, or the error (or default) is shown; loading stops; the dish name and the form are unchanged |
| `Home.HomeComponent.RecipeArrived` | src/pages/home.component.ts:224-249 | the item is added to history, and stored unless the store refuses writes, before the page navigates with item and recipe; failure shows the error and leaves the store alone; loading stops; the dish name and the form are unchanged |
| `Home.HomeComponent.ImageArrived` | src/pages/home.component.ts:256-263 | the item gets the URL, or loses its image on failure; a reply for a replaced menu changes nothing shown; the dish name and the form are unchanged |
| `Home.HomeComponent.ViewRecipe` | src/pages/home.component.ts:266-269 | the item is added to history, and stored unless the store refuses writes, then the page navigates with the item alone; the menu, loading, error, dish name, form and generation are unchanged |

## Left out

- The Gemini and Imagen SDK calls, the `withTimeout` race, the model names, the response schemas and the prompts built inside the service (`src/services/ai.service.ts:19-24,31-54,75-111,135-143`). These are foreign calls and timers; each call is given as the `Reply` it settled to.
- Stored text that parses to something other than a list, such as `null`, `0` or `{}`, becomes the list in the source (`src/services/history.service.ts:19`, `src/services/favorite.service.ts:19`). The next `[record, ...prev]` (`src/services/history.service.ts:28`) or `prev.some` (`src/services/favorite.service.ts:29`) then throws. The model's parse function yields a typed list or a failure, so it cannot express this.
- `JSON.stringify` and `JSON.parse` are function values passed to the services, so the round trip of the stored text is not proved. The `as GeneratedMenu` and `as Recipe` casts are unchecked in the source; the model's parser yields typed records.
- Numbers in the records are integers. Ingredient scaling uses exact rationals, not doubles. A result that `toString` would print in exponent notation (1e21 and above) is not modelled. Double rounding errors such as 0.1 + 0.2 are not modelled either.
- JsNumber.ParseFloat: only digit and decimal-point prefixes are modelled (no sign, exponent, leading white space or "Infinity"), because only regular-expression tokens reach it.
- JsText.ReplaceFirst: the `$` substitution patterns of `replace` are not modelled, because the replacement is always a formatted number.
- JsValue.RecipeOf: a recipe that passes `isRecipe` reads missing or mistyped fields as "", 0 or [], and a step that is not an object as a default step. The source keeps the state object as it is (`src/pages/recipe-detail.component.ts:50-52`).
- JsValue.MenuItemOf: an item that passes `isMenuItem` but lacks other fields reads them as "", 0, [] or none. The source keeps the partial object as it is.
- Concurrency is not modelled. Each continuation of an awaited call runs as one atomic step on the state it finds. The route parameter subscription in `ngOnInit` is treated as answering at once.
- Object identity on the home page. Items are values here, and a `generation` number stands for "these are the item objects of the menu now shown". `viewRecipe` hands the same object to the history, and a later image reply mutates it there too. That in-memory aliasing is not modelled.
- An item opened while its image is still "generating" carries that marker to the detail page, which counts it as an image and requests none. The model reproduces this but states no property about it.
- A history loaded from storage may hold more than 10 entries. The cap holds only from the first `addRecord` on, as in the source.
- `RecipeRecord` (`src/models.ts:59-63`) is not modelled. Both services are given `MenuItem` records, which is what every caller passes.
- The `descriptionExpanded` and `copyButtonText` signals, `navigator.clipboard.writeText` and its timer, console logging, templates and styles are not modelled.
- Router internals are not modelled; a navigation is recorded as an event holding its state.
- `library.component.ts` is not part of this model. It holds a tab flag and calls a `removeRecord` that the history service does not define.
