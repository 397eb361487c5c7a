# Lunch Decider — a Dafny model of its selection engine

Lunch Decider is a single-page React app that suggests a lunch. It holds a
fixed catalog of 30 dishes. The catalog is keyed by diet (vegetarian,
non-vegetarian, vegan) and food type (healthy, comfort), and every dish has a
cuisine. The user can save a diet and a food type in a two-step customize
dialog, and can pick a cuisine filter. The decide button then runs a short
"reveal": eleven ticks, each showing a randomly drawn dish from the eligible
list. The last dish drawn stays on screen.

This project models that engine in Dafny and proves properties of the model:

- `Catalog` (catalog.dfy) is the catalog as a constant function of diet and food type.
- `Cuisines` (cuisines.dfy) is the filter panel's cuisine list. It is the
  distinct cuisines of the catalog in first-appearance order, which is what
  spreading a JavaScript `Set` gives.
- `Eligible` (eligible.dfy) computes the list a decision draws from: a base
  list chosen by the saved diet and food type, then narrowed by cuisine.
- `Decider` (decider.dfy) defines the class `LunchDecider`. Its fields are the
  component's state, and its methods are the event handlers: the reveal, the
  wizard steps and the clear buttons. The module also models the reveal's
  interval exactly as the code runs it, for the finding below.
- `Wrappers` (wrappers.dfy) holds `Option`, which stands for the state's `T | null` values.

Randomness is replaced by a caller-supplied sequence of draws: one index per
tick, each inside the list being drawn from.

## Model

| member | source | states |
|---|---|---|
| Catalog.Menu | project/src/App.tsx:5-54 | The catalog table: for each (diet, food type) pair, its five dishes with name and cuisine, in declaration order. |
| Catalog.ItemsOf | project/src/App.tsx:79-82 | One diet's dishes: its healthy list followed by its comfort list. |
| Catalog.AllItems | project/src/App.tsx:66-71 | The flattened catalog: veg, nonVeg, vegan, each healthy then comfort, the order both the cuisine list and the no-diet branch walk. |
| Cuisines.InsertAll | project/src/App.tsx:66-71 | An insertion-ordered set after inserting the first n elements of a list one by one; an element already present is skipped. |
| Cuisines.Distinct | project/src/App.tsx:66-71 | Spreading a Set built from a list: the list's elements without repeats. |
| Cuisines.CuisinesOf | project/src/App.tsx:70 | The cuisine column: one entry per dish, entry i the cuisine of dish i. |
| Cuisines.CuisineList | project/src/App.tsx:66-71 | The filter panel's cuisine buttons: the distinct cuisines of the flattened catalog. |
| Eligible.BaseOptions | project/src/App.tsx:75-84 | The base list: the (diet, food type) list when both are saved, the diet's dishes when only the diet is saved, the whole catalog otherwise. |
| Eligible.WithCuisine | project/src/App.tsx:86-88 | The filter call: the dishes of a list whose cuisine equals the given one, in order. |
| Eligible.Filtering | project/src/App.tsx:86 | The truthiness test of the saved cuisine: set and not the empty string. |
| Eligible.FilteredOptions | project/src/App.tsx:86-88 | The draw list: the base list, filtered by the saved cuisine when the truthiness test holds. |
| Decider.LunchDecider.Pool | project/src/App.tsx:75-88 | The draw list for the criteria saved in the state now. |
| Decider.SourceTick | project/src/App.tsx:91-100 | One firing of the interval as written: on an empty list it throws before counting and changes nothing; otherwise it shows the drawn name, counts, and clears once the counter passes 10. |
| Decider.SourceRun | project/src/App.tsx:90-100 | Successive firings of the interval as written, until it is cleared or the draws run out. |
| Catalog.MenuSizes | project/src/App.tsx:5-54 | Every (diet, food type) list holds exactly five dishes, so none is empty. |
| Catalog.CatalogSizes | project/src/App.tsx:5-54 | A diet offers ten dishes and the whole catalog thirty. |
| Catalog.AllItemsCoversCatalog | project/src/App.tsx:66-71 | A dish is in the flattened catalog exactly when some (diet, food type) list holds it. |
| Cuisines.InsertAllSpec | project/src/App.tsx:66-71 | Inserting a prefix of a list into a fresh insertion-ordered set gives no repeats. It holds exactly the prefix's elements, in first-occurrence order. |
| Cuisines.DistinctSpec | project/src/App.tsx:66-71 | Deduplicating a list gives no repeats. It holds exactly the list's elements, ordered by each one's first occurrence. |
| Cuisines.InsertAllConcat | project/src/App.tsx:66-71 | Inserting `a + b` into the set is inserting `a` and then `b`. |
| Cuisines.CuisineListSpec | project/src/App.tsx:66-71 | The cuisine list has no duplicates. It offers exactly the cuisines some catalog dish has, in order of their first appearance in the catalog. |
| Cuisines.CuisineListValue | project/src/App.tsx:66-71 | The cuisine list is Mediterranean, International, Asian, Italian, American, Indian, Japanese, British, Mexican. |
| Eligible.BaseOptionsMembers | project/src/App.tsx:75-84 | The base list holds exactly the dishes offered under the saved criteria: the diet's, if one is saved, and the food type's when both are saved. |
| Eligible.BaseOptionsComposition | project/src/App.tsx:77-84 | A diet alone gives its healthy list and then its comfort list. No diet gives veg, then nonVeg, then vegan, whatever food type is saved. The sizes are 5, 10 and 30. |
| Eligible.WithCuisineSpec | project/src/App.tsx:86-88 | The cuisine filter keeps its input's order as a subsequence. It keeps exactly the dishes of that cuisine, and keeps every copy of each. |
| Eligible.WithCuisineConcat | project/src/App.tsx:86-88 | Filtering a concatenation filters each part. |
| Eligible.FilteredOptionsSpec | project/src/App.tsx:86-88 | The draw list is a subsequence of the base list and holds exactly the base dishes of the selected cuisine. With no cuisine, or the empty string, it is the base list itself. |
| Eligible.FilteredOptionsMembers | project/src/App.tsx:75-88 | A dish can be drawn exactly when the diet and food type offer it and it has the selected cuisine. Every such dish is a catalog dish. |
| Eligible.FilteredWithinDiet | project/src/App.tsx:77-80 | With a diet saved, every dish that can be drawn belongs to that diet. |
| Eligible.FilteredWithoutDiet | project/src/App.tsx:81-88 | With no diet saved, every catalog dish of the selected cuisine can be drawn, whatever food type is saved. |
| Eligible.JapaneseExample | project/src/App.tsx:28-43 | With no diet and the Japanese filter, the draw list is exactly Tuna Poke Bowl, then Raw Veggie Sushi Rolls. |
| Eligible.EmptyPoolExample | project/src/App.tsx:46-51 | Vegan comfort food filtered to Japanese leaves nothing to draw. |
| Decider.LunchDecider.constructor | project/src/App.tsx:57-64 | The initial state has nothing selected, nothing saved, not deciding, and the dialog closed at step 1. |
| Decider.LunchDecider.StartDeciding | project/src/App.tsx:73-90 | The draw list is computed once from the saved criteria. If it is non-empty the reveal starts with that list captured and the counter at 0. If it is empty nothing changes. |
| Decider.LunchDecider.Tick | project/src/App.tsx:91-100 | One tick shows the drawn dish's name and increments the counter. Deciding stops exactly when the counter passes 10. The new counter, stop flag and shown name equal one firing of the interval as written (`SourceTick`). |
| Decider.LunchDecider.Reveal | project/src/App.tsx:90-100 | A running reveal fires exactly 11 ticks. Tick k shows the name at draw k, the 11th name stays selected, and deciding is false afterwards. |
| Decider.LunchDecider.DecideLunch | project/src/App.tsx:73-101 | An empty draw list reports `EmptySelectionPool` and changes nothing. Otherwise exactly 11 names are shown, each the dish at its draw in the list captured at the start, and the last one stays selected. Deciding always ends false. |
| Decider.LunchDecider.OpenCustomize | project/src/App.tsx:277 | The customize button opens the dialog and changes nothing else. |
| Decider.LunchDecider.ChooseDiet | project/src/App.tsx:134 | Choosing a diet saves it and keeps the saved food type. Afterwards every dish that can be drawn belongs to that diet. |
| Decider.LunchDecider.Next | project/src/App.tsx:103-107 | "Next" moves to step 2 exactly when a diet is saved and otherwise leaves the step alone. |
| Decider.LunchDecider.ChooseFoodType | project/src/App.tsx:171 | Choosing a food type saves it and changes nothing else. |
| Decider.LunchDecider.Back | project/src/App.tsx:188 | "Back" returns to step 1 and changes nothing else. |
| Decider.LunchDecider.SaveAndReturn | project/src/App.tsx:109-112 | "Save & Return" closes the dialog and resets it to step 1. |
| Decider.LunchDecider.ChooseCuisine | project/src/App.tsx:250 | A cuisine button saves that cuisine and changes nothing else. |
| Decider.LunchDecider.ClearCuisine | project/src/App.tsx:240 | Clearing the cuisine, from the filter panel or from the cuisine chip at line 303, touches nothing else. The draw list is then the whole base list. |
| Decider.LunchDecider.ClearDiet | project/src/App.tsx:314-317 | Clearing the diet clears the food type too. Every catalog dish of the selected cuisine can then be drawn. |
| Decider.LunchDecider.ClearFoodType | project/src/App.tsx:328 | Clearing the food type leaves the diet alone. |
| Decider.EmptyPoolNeverClears | project/src/App.tsx:90-100 | As the code is written, an interval over an empty list never changes its state, so it never clears, however often it fires. |
| Decider.SourceRunClearsAfterEleven | project/src/App.tsx:90-100 | As the code is written, an interval over a non-empty list clears after its 11th firing, showing the 11th drawn name. |
| Decider.StuckForVeganComfortJapanese | project/src/App.tsx:46-51 | For vegan, comfort and Japanese, the code as written leaves the spinner running forever. |

Other facts about the handlers:

- Every handler's `modifies` clause names the fields it writes, and no others.
- The handlers never touch the captured list `pool` or the counter `count`. Changing the criteria in the middle of a reveal therefore cannot change what that reveal draws from.
- `StartDeciding` and `DecideLunch` require `!isDeciding`, because the decide button is disabled while deciding (project/src/App.tsx:286). A second reveal cannot start in the middle of one.

## Left out

- JSX rendering and styling are not modelled: icons, `FloatingEmoji`, the `showFilters` toggle and button highlighting.
- `Math.random()` and the floating-point index expression become caller-supplied draws. No claim about uniformity is made.
- `setInterval`/`clearInterval` and the 100 ms cadence become `Tick`, with `Reveal` running the ticks to the end. React's `useState`/`useCallback` and its batching of state updates become plain field updates.
- The Next and Save & Return buttons are disabled without a saved diet or food type (project/src/App.tsx:151, 195). These guards are not preconditions in the model. `Next` checks the diet itself, and `SaveAndReturn` works without a food type, as its handler does.
- Choosing a new diet does not reset the food type, in the code and in `ChooseDiet`. Some descriptions of the app call for a food-type reset on a diet change; the code at project/src/App.tsx:134 does not do it.
- The model has no rejection of unknown diet, food-type or cuisine values, and neither does the code. Its union types rule such values out, and a cuisine comes only from the cuisine buttons.
- An empty cuisine string behaves like no cuisine, because of JavaScript truthiness (`Eligible.Filtering`). The UI never produces one.
- The corrected reveal (`StartDeciding`, `DecideLunch`) rejects an empty draw list instead of throwing. See the finding below.

## Findings

| source | as written | input that shows it | evidently intended | confidence | as-written member | corrected member |
|---|---|---|---|---|---|---|
| project/src/App.tsx:74-100 | The handler sets `isDeciding` before it looks at the draw list. On an empty list, the index expression gives 0 and the element read there is missing. Reading its name throws before the counter moves, so the interval keeps firing and is never cleared. `isDeciding` stays true, and the decide button stays disabled for good. | diet vegan, food type comfort, cuisine Japanese (`Eligible.EmptyPoolExample`) | An empty draw list is reported, no reveal starts, and nothing changes, so deciding stays false. | high; not executed | Decider.EmptyPoolNeverClears | Decider.LunchDecider.DecideLunch |
