# Meal-Planner front end: UI-state model

This project models the UI-state rules of the grocery-browsing and recipe-suggestion front end in Dafny, and proves properties about them. There is one module per component:

- `App` keeps the ordered selection list. Toggling an item is keyed by its `id`, and clear-all empties the list.
- `GroceryFilters` holds the filter-criteria record: its defaults, the single-field handlers, apply and reset (with what each hands to the parent), the active-filters predicate, the chips and their delete actions.
- `GroceryList` covers the list component: its initial state and the load step, done as a class `ListState` whose method changes its fields. It also has the page-change handler, the page count (ceiling division by 12), the `isSelected` membership test and the render-branch priority (spinner, error, empty, grid).
- `RecipeGenerator` covers the recipe panel: the generate and clear-all transitions, done as a class `RecipePanel`. It also has the disable and view guards, the selected-item chips, and the recipe card with `instructions.split('\n')` and its join inverse.
- `GroceryItem` defines the item record and the card: the price label, the optional `/unit` suffix, the button text and the item handed to `onSelect`.
- `Text` renders numbers in decimal, including `toFixed(2)` of a price held in whole cents. `Wrappers` gives `Option` (JavaScript `null`/`undefined`) and string truthiness.

The two network calls, the catalog fetch and recipe generation, are parameters of the methods that make them: `backend: Query -> FetchOutcome` and `service: seq<Item> -> RecipeOutcome`. Each load or generate step is one atomic transition that carries its outcome.

Two facts about the code are worth stating up front:

- Toggling twice gives back the selection only when the item's id was absent. When it was present, two toggles drop every entry with that id and put the clicked item last (`App.ToggleTwicePresent`, `App.ToggleTwiceReorders`).
- The catalog request never carries the filters or the page (`GroceryList.PaginatedQueryNotSent`, and `LoadGroceries` depends only on `backend(CatalogQuery)`), and the page size is 12.

## Model

| member | source | states |
|---|---|---|
| App.HasId | src/App.js:19 | `some` by id: true exactly when some entry carries the id |
| App.CountId | src/App.js:22 | the number of entries with the id; zero exactly when the id is absent |
| App.RemoveId | src/App.js:22 | `filter` by id: the length drops by the number of matching entries; every kept entry comes from the list and has another id; every entry with another id is kept |
| App.RemoveIdAppend | src/App.js:22 | the filter distributes over concatenation, so the kept entries stay in their original relative order |
| App.RemoveIdSingle | src/App.js:22 | on one entry, the filter keeps it exactly when its id differs |
| App.RemoveIdAbsent | src/App.js:22 | filtering out an absent id returns the list unchanged |
| App.ToggleSelection | src/App.js:17-27 | the id is present afterwards exactly when it was absent before; an absent item is appended at the end after all prior entries; a present id loses all its entries, the length drops by their count, and every other entry stays |
| App.ClearSelection | src/App.js:29-31 | the result is empty and selects no id, whatever the prior list |
| App.ToggleMatchesById | src/App.js:19-22 | a stored entry with the clicked item's id but different other fields is still removed |
| App.RemoveIdKeepsDistinct | src/App.js:22 | filtering keeps pairwise-distinct ids distinct |
| App.ToggleKeepsDistinct | src/App.js:18-26 | toggling keeps pairwise-distinct ids distinct |
| App.ToggleTwiceAbsent | src/App.js:18-26 | toggling an absent item twice returns the original list |
| App.ToggleTwicePresent | src/App.js:18-26 | toggling a present item twice gives the list without that id, followed by the item |
| App.ToggleTwiceReorders | src/App.js:18-26 | concrete case: toggling the first of two selected items twice moves it to the back |
| GroceryFilters.HandleFilterChange | src/components/GroceryFilters.js:42-48 | sets the named field to the value; the other fields and the price range are unchanged; nothing is emitted |
| GroceryFilters.HandlePriceChange | src/components/GroceryFilters.js:50-55 | replaces only the price range, with slider-bounded ends; nothing is emitted |
| GroceryFilters.ApplyFilters | src/components/GroceryFilters.js:57-59 | emits the current record unchanged and keeps it |
| GroceryFilters.ResetFilters | src/components/GroceryFilters.js:61-69 | the state becomes the default record, which is inactive, and the emitted value is the empty object |
| GroceryFilters.ResetDiffersFromApplyDefaults | src/components/GroceryFilters.js:57-69 | reset and applying the defaults leave the same state but hand the parent different values |
| GroceryFilters.DefaultsInactive | src/components/GroceryFilters.js:20-25 | the initial record `{'' , '', [0,50], ''}` is within the slider bounds and shows no active filters |
| GroceryFilters.InactiveIffDefaults | src/components/GroceryFilters.js:144-145 | for slider-bounded records, the panel is hidden exactly when the record is the default one |
| GroceryFilters.ActiveIffSomeChip | src/components/GroceryFilters.js:144-168 | the panel condition holds exactly when at least one chip's condition holds |
| GroceryFilters.ViewChips | src/components/GroceryFilters.js:148-168 | a chip is listed exactly when its condition holds, with its own label |
| GroceryFilters.ActiveFiltersPanel | src/components/GroceryFilters.js:143-171 | the panel is present exactly when a filter is active; it is then non-empty, lists exactly the shown chips, and each has its label |
| GroceryFilters.DeleteChip | src/components/GroceryFilters.js:149-168 | a chip delete hides that chip and clears only its own field; the price chip restores [0, 50]; the other chips and fields are unchanged; nothing is emitted |
| GroceryFilters.DeleteAllChipsResets | src/components/GroceryFilters.js:149-168 | deleting every chip gives the default record |
| GroceryList.PaginatedQuery | src/components/GroceryList.js:27-31 | the built parameters carry the filters, the page and the limit 12 |
| GroceryList.PaginatedQueryNotSent | src/components/GroceryList.js:27-34 | the built parameters always differ from the parameterless request that is actually sent |
| GroceryList.TotalPages | src/components/GroceryList.js:36 | `ceil(total/12)`: the pages hold all items, one page fewer would not, and zero items give zero pages |
| GroceryList.TotalPagesLeast | src/components/GroceryList.js:36 | no smaller page count holds the items |
| GroceryList.IsSelected | src/components/GroceryList.js:94 | an item shows as selected exactly when some selected entry has its id |
| GroceryList.CardClickFlipsSelection | src/components/GroceryList.js:89-95 | pressing a card's button and toggling its item flips that item's selected-ness |
| GroceryList.RenderList | src/components/GroceryList.js:58-110 | spinner exactly when loading on page 1; else the error if it is truthy; else "no items" if empty; else a grid with one card per item, in order, each marked selected by id, plus the page count and page |
| GroceryList.ListState.constructor | src/components/GroceryList.js:15-19 | initial state: loading, page 1, one page, no items, no error; it renders the spinner whatever is selected |
| GroceryList.ListState.LoadGroceries | src/components/GroceryList.js:23-43 | the request ignores filters and page; on success the items and page count are taken from the response and the error is cleared; on failure the fixed message is set and items and page count are kept, and the error alert is rendered whatever is selected; loading ends false and the page is unchanged |
| GroceryList.ListState.HandlePageChange | src/components/GroceryList.js:49-52 | sets the page to the requested value and changes no other field |
| GroceryList.ReloadOfLaterPageKeepsGrid | src/components/GroceryList.js:58 | while a page other than 1 reloads, the previous grid stays on screen |
| RecipeGenerator.SplitLines | src/components/RecipeGenerator.js:143 | `split('\n')` always yields at least one step |
| RecipeGenerator.SplitLinesNoNewline | src/components/RecipeGenerator.js:143 | no step contains a newline |
| RecipeGenerator.SplitLinesCount | src/components/RecipeGenerator.js:143 | there is one more step than there are newlines |
| RecipeGenerator.JoinSplitLines | src/components/RecipeGenerator.js:143 | joining the steps with newlines gives back the instructions |
| RecipeGenerator.SplitJoinLines | src/components/RecipeGenerator.js:143 | splitting the join of newline-free steps gives back the steps |
| RecipeGenerator.TwoLineInstructions | src/components/RecipeGenerator.js:143 | "Mix\nServe" shows as the two steps "Mix" and "Serve" |
| RecipeGenerator.ChipPriceSuffix | src/components/RecipeGenerator.js:75 | a price part is present exactly when the price is neither null nor undefined |
| RecipeGenerator.ItemChipLabel | src/components/RecipeGenerator.js:75 | a chip is the name and a space, followed by "($" and the two-decimal amount and ")" when the price is present, and by nothing otherwise |
| RecipeGenerator.RenderCard | src/components/RecipeGenerator.js:114-161 | the card has the recipe's title and ingredients, and the newline-free steps that join back to the instructions; tips are shown exactly when truthy |
| RecipeGenerator.RenderPanel | src/components/RecipeGenerator.js:48-164 | the info notice exactly when the selection is empty, whatever the state; otherwise one chip per item, generate disabled exactly when loading or the selection is empty (here: when loading), clear disabled exactly when loading, spinner while loading, the alert exactly when the error is truthy, the card exactly when there is a recipe and not loading |
| RecipeGenerator.RecipePanel.constructor | src/components/RecipeGenerator.js:23-25 | initial state: not loading, no recipe, no error |
| RecipeGenerator.RecipePanel.HandleGenerateRecipe | src/components/RecipeGenerator.js:27-40 | on success the recipe is the service's result and the error is cleared; on failure the fixed message is set and the recipe is kept; loading is false afterwards |
| RecipeGenerator.RecipePanel.HandleClearAll | src/components/RecipeGenerator.js:42-46 | recipe and error are cleared, loading is untouched, and the parent's selection becomes empty |
| RecipeGenerator.GeneratedRecipeIsShown | src/components/RecipeGenerator.js:114 | after a successful generation for a non-empty selection, the card shows that recipe and no alert |
| RecipeGenerator.ClearAllShowsInfo | src/components/RecipeGenerator.js:42-59 | after clear-all the panel shows the info notice |
| GroceryItem.UnitSuffix | src/components/GroceryItem.js:21 | "/" and the unit exactly when the unit is truthy, otherwise nothing |
| GroceryItem.FormattedPrice | src/components/GroceryItem.js:20-22 | an absent price gives exactly "Price not available"; a present one gives "$" and the two-decimal amount first, contains '/' exactly when the unit is truthy, then ends with "/unit", and otherwise has no suffix |
| GroceryItem.PresentPriceNeverFallback | src/components/GroceryItem.js:20-22 | a present price never renders as the fallback text |
| GroceryItem.ButtonLabel | src/components/GroceryItem.js:79 | "Selected" exactly when selected, "Select Item" exactly when not |
| GroceryItem.RenderCard | src/components/GroceryItem.js:24-83 | the card shows the item's name, type, chain and price label, is highlighted exactly when selected, and hands its own item unchanged to `onSelect` |
| GroceryItem.CardShowsSelection | src/components/GroceryItem.js:79 | the button text determines whether the card is selected |
| Text.NatToString | src/components/GroceryFilters.js:165 | a number in a template literal is a non-empty digit string without a leading zero |
| Text.NatToStringRoundTrip | src/components/GroceryFilters.js:165 | parsing the digits back gives the number |
| Text.IntToString | src/components/GroceryFilters.js:165 | a leading minus sign exactly for negative numbers, digits after it |
| Text.IntToStringRoundTrip | src/components/GroceryFilters.js:165 | the digits after the optional sign parse back to the magnitude of the number |
| Text.Fixed2 | src/components/GroceryItem.js:21 | `toFixed(2)`: digits, a point, and exactly two digits after it |
| Text.Fixed2RoundTrip | src/components/GroceryItem.js:21 | the two-decimal rendering of a whole number of cents parses back to that number |
| Text.Fixed2Injective | src/components/GroceryItem.js:21 | different prices never share a rendering |

## Left out

- Prices are held as whole cents. So `toFixed(2)` by `Text.Fixed2` is exact, and the rounding of binary floating-point prices is not modelled.
- The HTTP wrappers in src/services/api.js and src/services/llmService.js are not modelled. Their results are the `backend` and `service` parameters.
- Filter-option loading in `useEffect` (src/components/GroceryFilters.js:27-40) is I/O and is not modelled.
- Async timing is not modelled. The effect re-runs when `filters` or `page` changes, but that scheduling, overlapping loads and stale responses are outside the model. Each load or generate is one atomic transition. The list's mid-load state (`loading` true) is never a state of `ListState` after its constructor; `RenderList` and `RenderPanel` take `loading` as an input and cover it there.
- RecipeGenerator.RecipePanel.HandleGenerateRecipe: the panel's state during the service call (`loading` true, `error` cleared, the old recipe kept) is never a state of `RecipePanel`; only the state after the call is.
- GroceryList.ListState.LoadGroceries: a success is modelled as a list of items plus a separate natural-number `total`, which matches neither shape the backend can send. For a bare array, `response.total` is undefined and the source's page count becomes NaN. For a response wrapped with a total, the source stores the wrapper object itself as `groceries`, so `groceries.length` is undefined and `groceries.map` throws. Neither failure is modelled.
- RecipeGenerator.RecipePanel.HandleGenerateRecipe: a successful response whose `recipe` field is missing (so the state becomes `undefined`) is not modelled. Success always carries a recipe.
- GroceryFilters.HandleFilterChange: only the three text fields the component binds it to (`type`, `chain`, `searchTerm`) are modelled; a computed key naming any other property is not.
- GroceryFilters.HandlePriceChange: the slider's `min`/`max` of 0 and 50 are taken as a precondition on the new range.
- `setFilters` in src/App.js:13-15 only stores the payload passed to the list; it is not a separate member. The list's load effect re-runs whenever that payload changes, and spreads it into `paginatedFilters`, but never sends it (`GroceryList.PaginatedQueryNotSent`).
- Rendering details are not modelled: MUI layout, styles, `window.scrollTo`, `console.error`, the header count (src/components/Header.js) and src/theme.js.
- Catalog filtering, chain grouping, per-group pagination and the expiring cache do not exist in these files, so they are not modelled.
