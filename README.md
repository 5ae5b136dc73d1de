# Meal tracker core — a Dafny model

This project models the core of a mobile nutrition-tracking client in Dafny. The model has three parts:

- **Meal state manager** (`MealsContext`). The `MealsProvider` object holds these fields:
  - the meal list;
  - the optional daily calorie goal;
  - the `hydrated` flag;
  - the draft meal under construction.

  It loads both persisted records once at start-up. After that load, it writes the meal list or the goal back to the on-device key-value store whenever either changes. It has seven operations:
  - `setGoal`, `removeMeal`;
  - `setDraftMealName`, `addFoodToDraft`, `removeFoodFromDraft`, `resetDraftMeal`;
  - `addMealFromDraft`.
- **Nutrition arithmetic** (`Nutrition`). This covers per-macro totals of a food list, the calories of one food and of one meal, and today's date as `YYYY-MM-DD`.
- **Open Food Facts normalisation** (`OpenFoodFacts`). This turns a partial product record into a `Food`. It also covers the decisions `searchFoods` and `fetchFoodByBarcode` take before and after their HTTP request.

Supporting modules:
- `Types` holds the value shapes: `MealType`, `Food`, `Meal`, `DraftMeal`.
- `Wrappers` holds `Option` and `Outcome`.
- `MealsScenario` drives the provider as a screen would: a two-food lunch recorded after a successful load, whose calories add up to 350, and a failed load after which changes stay in memory and are never written back.
- `Text` models the JavaScript string built-ins the core uses: `trim`, `toLowerCase`, `String(n)` on integers and `padStart`.

## How the model is built

- `MealsProvider` is a class. Its fields are the provider's state, plus `mounted` (the effect's unmount flag) and two ghost fields. `store` is the key-value store, a map from key to decoded record. `loadSettled` records that the one start-up load has completed or failed; the load runs once per mount, so a provider whose load failed is never hydrated.
- Every operation is a method that updates the fields. The method's `ensures` state the whole new state, including which fields are unchanged and what the store now holds.
- Each state update is a pure expression in the source, so it is a function here, called from the method:
  - `WithoutId` is the id filter.
  - `RemoveAt` is the positional filter.
  - `RemoveFood` picks between the two.
  - `PromoteDraft` builds the new meal.
- `Valid()` is the class invariant: once hydrated, the store holds exactly the in-memory meal list and goal. Every method keeps it. Every method's `ensures` also say that the store is untouched while `hydrated` is false.
- `calculateMealTotals` updates an accumulator in place inside a `reduce`. It is the method `CalculateMealTotals`, whose loop is proved against the specification function `TotalsOf`. The facts about the totals are lemmas about `TotalsOf` and `Sum`.
- JavaScript numbers are `Num = Finite(int) | NaN`, so `x || 0` keeps its meaning: 0 and NaN are falsy.
- `Date.now()` and `new Date()` become an `Instant` parameter. `Math.random()` becomes a `fallbackId` parameter. `fetch` becomes a function parameter from the trimmed query or code to the decoded response.

Two behaviours of the code worth stating outright:
- `removeMeal`, and `removeFoodFromDraft` without an index, remove **every** element with the given id (src/context/MealsContext.tsx:78, 91).
- A failed load leaves the provider un-hydrated and nothing is written back. If reading storage throws, `hydrate` never completes, so `hydrated` stays false (src/context/MealsContext.tsx:37-46). `Hydrate(LoadFailed)` therefore changes nothing.

## Model

| member | source | states |
|---|---|---|
| `MealsContext.MealsProvider.constructor` | src/context/MealsContext.tsx:26-32 | Initial state: no meals, no goal, not hydrated, an empty unnamed draft; the store is whatever was persisted before |
| `MealsContext.MealsProvider.Hydrate` | src/context/MealsContext.tsx:34-66 | If still mounted and the load succeeded, meals and goal become the loaded values, `hydrated` turns true, and both records are written back (a null goal removes its key). If unmounted or the load failed, nothing changes. The draft is untouched. The load settles either way and cannot complete again, so a provider whose load failed is never hydrated and never writes to the store. |
| `MealsContext.MealsProvider.Unmount` | src/context/MealsContext.tsx:49-51 | Teardown clears `mounted` and changes nothing else; after it no operation below may be called, as each requires `mounted` |
| `MealsContext.MealsProvider.SetGoal` | src/context/MealsContext.tsx:74-76 | The goal becomes the given value, null included; once hydrated the goal record is rewritten or removed, before that the store is untouched; nothing else changes |
| `MealsContext.MealsProvider.RemoveMeal` | src/context/MealsContext.tsx:77-79 | The list keeps exactly the meals whose id differs, in order; an absent id leaves it equal; goal and draft are unchanged; the meals record is rewritten only when hydrated |
| `MealsContext.MealsProvider.SetDraftMealName` | src/context/MealsContext.tsx:80-82 | Only the draft's name changes; its foods, the meals, the goal and the store stay |
| `MealsContext.MealsProvider.AddFoodToDraft` | src/context/MealsContext.tsx:83-85 | The draft's foods become the old foods plus the new one at the end (duplicates allowed); the name and everything else stay |
| `MealsContext.MealsProvider.RemoveFoodFromDraft` | src/context/MealsContext.tsx:86-93 | The draft's foods become `RemoveFood` of the old foods; the name and everything else stay |
| `MealsContext.MealsProvider.ResetDraftMeal` | src/context/MealsContext.tsx:94-96 | The draft becomes `{null, []}`; nothing else changes |
| `MealsContext.MealsProvider.AddMealFromDraft` | src/context/MealsContext.tsx:97-112 | Returns `PromoteDraft` of the current draft. On null, nothing changes. Otherwise the meal heads the list with the old list as its tail, the draft becomes empty, and the meals record is rewritten once hydrated. |
| `MealsContext.SaveMeals` | src/storage/storage.ts:20-22 | The meals key holds the whole list afterwards; every other key is untouched |
| `MealsContext.SaveGoal` | src/storage/storage.ts:34-41 | A null goal leaves the goal key absent, a number is stored under it; every other key is untouched |
| `MealsContext.WithoutId` | src/context/MealsContext.tsx:78 | An element is kept iff it was there and its id differs; the result is no longer than the input; when no element has the id, the input comes back unchanged |
| `MealsContext.WithoutIdAppend` | src/context/MealsContext.tsx:78 | Filtering distributes over concatenation, so the kept elements keep their relative order |
| `MealsContext.WithoutIdIdempotent` | src/context/MealsContext.tsx:91 | Removing the same id twice equals removing it once |
| `MealsContext.RemoveAt` | src/context/MealsContext.tsx:89 | An index in range drops exactly that position, whatever ids the other elements share; any other index leaves the sequence unchanged |
| `MealsContext.RemoveFood` | src/context/MealsContext.tsx:86-93 | With an index in range, the length drops by one and exactly that position goes. With an index out of range, the foods are unchanged. Without an index, the result is the in-order filter `WithoutId` by the food id, so a food stays iff its id differs and kept foods keep their order and multiplicity. |
| `MealsContext.PromoteDraft` | src/context/MealsContext.tsx:97-107 | Null exactly when the draft has no name or no food; otherwise a meal with the clock's id, today's date, and the draft's name and foods |
| `Nutrition.OrZero` | src/utils/nutrition.ts:18-21 | `x \|\| 0` is 0 exactly when `x` is falsy (0 or NaN) and is `x` itself for every finite number |
| `Nutrition.FoodCalories` | src/utils/nutrition.ts:11-13 | A food's calories are 0 exactly when its calories are falsy, and otherwise are the calories themselves |
| `Nutrition.TotalsOf` | src/utils/nutrition.ts:15-26 | Each field is the sum of that macro over the foods, falsy values counted as 0; the empty list gives `{0,0,0,0}` |
| `Nutrition.CalculateMealTotals` | src/utils/nutrition.ts:15-26 | The loop's fresh accumulator ends equal to `TotalsOf(foods)`; the input sequence is a value and is not modified |
| `Nutrition.SumAppend` | src/utils/nutrition.ts:16-25 | A macro's sum over `a + b` is its sum over `a` plus its sum over `b` |
| `Nutrition.TotalsAppend` | src/utils/nutrition.ts:15-26 | The totals of `a + b` are the field-wise sum of the totals of `a` and of `b` |
| `Nutrition.Sum` | src/utils/nutrition.ts:16-25 | The fold of one macro from the first food to the last, falsy values counted as 0; it is the reference that `TotalsOf`, `SumAppend` and `SumCalories` are stated against |
| `Nutrition.SumCalories` | src/utils/nutrition.ts:29 | Reducing with `getFoodCalories` gives the same number as the calories sum used by the totals |
| `Nutrition.MealCalories` | src/utils/nutrition.ts:28-30 | `calculateMealCalories(meal)` equals `calculateMealTotals(meal.foods).calories` |
| `Nutrition.Pad2` | src/utils/nutrition.ts:6-7 | `String(n).padStart(2, '0')`; for 1 to 99 it is two digits that read back as n (proved by `Pad2Digits`) |
| `Nutrition.TodayDateString` | src/utils/nutrition.ts:3-9 | `getTodayDateString` for the local year, zero-based month and day that the clock reading gives; its `YYYY-MM-DD` shape and round trip are proved by `TodayDateStringShape` |
| `Nutrition.Pad2Digits` | src/utils/nutrition.ts:6-7 | `String(n).padStart(2, '0')` for n from 1 to 99 has two digits that read back as n |
| `Nutrition.TodayDateStringShape` | src/utils/nutrition.ts:3-9 | For a four-digit year, month0 in 0..11 and day in 1..31, the string has length 10 and '-' at positions 4 and 7. Its three digit fields read back as the year, month0 + 1 and the day. |
| `Text.Trim` | src/api/openFoodFacts.ts:27-31 | The result has no whitespace at either end, and it is empty exactly when the input is all whitespace |
| `Text.TrimOffset` | src/api/openFoodFacts.ts:27-31 | The position where the leading whitespace ends: what `TrimStart` keeps is the input from there on |
| `Text.TrimSlice` | src/api/openFoodFacts.ts:27-31 | The trimmed string is the slice of the input that starts at `TrimOffset`: `trim` only cuts, it never changes a kept character |
| `Text.TrimCutsWhitespace` | src/api/openFoodFacts.ts:27-31 | Everything before and after that slice is whitespace |
| `Text.TrimStart` | src/api/openFoodFacts.ts:27-31 | The result is a suffix of the input that does not start with whitespace, and only whitespace was cut |
| `Text.TrimEnd` | src/api/openFoodFacts.ts:27-31 | The result is a prefix of the input that does not end with whitespace, and only whitespace was cut |
| `Text.TrimFixedPoint` | src/api/openFoodFacts.ts:27-31 | `trim` returns its input unchanged exactly when neither end is whitespace |
| `Text.TrimIdempotent` | src/api/openFoodFacts.ts:27-31 | Trimming twice equals trimming once |
| `Text.LowerChar` | src/api/openFoodFacts.ts:33 | An ASCII upper-case letter becomes its lower-case letter (code point + 32); any other character is kept |
| `Text.LowerCase` | src/api/openFoodFacts.ts:33 | Same length; each upper-case letter A–Z becomes its lower-case letter and every other character is kept; no upper-case letter is left |
| `Text.LowerCaseFixedPoint` | src/api/openFoodFacts.ts:33 | Lower-casing returns its input unchanged exactly when the input has no upper-case letter |
| `Text.PadStart` | src/utils/nutrition.ts:6-7 | The result is as long as the larger of the width and the input |
| `Text.PadStartShape` | src/utils/nutrition.ts:6-7 | The padded string ends with the input and everything before it is the fill character |
| `Text.DecimalString` | src/context/MealsContext.tsx:103 | A non-empty string of digits, with no leading zero unless the number is 0; it is one digit long exactly when the number is below 10 |
| `Text.IntString` | src/utils/nutrition.ts:8 | `String(n)` in canonical form: digits for a non-negative number, a leading '-' for a negative one, never empty, and no leading zero unless n is 0 (after the sign for a negative number) |
| `Text.IntStringValue` | src/context/MealsContext.tsx:103 | `String(n)` reads back as n: the digits are n itself, or -n after the sign when n is negative |
| `Text.ParseDecimalString` | src/utils/nutrition.ts:5-8 | Reading a numeral back gives the number it was printed from |
| `OpenFoodFacts.TrimmedOr` | src/api/openFoodFacts.ts:31 | `a?.trim() \|\| fallback`: the trimmed value when it is not blank (and then non-empty), else the fallback |
| `OpenFoodFacts.Blank` | src/api/openFoodFacts.ts:27-31 | `s?.trim()` is falsy exactly when `s` is missing or holds only whitespace |
| `OpenFoodFacts.Amount` | src/api/openFoodFacts.ts:34-37 | `nutriments?.x ?? 0`: the nutriment when present, else 0 |
| `OpenFoodFacts.ProductName` | src/api/openFoodFacts.ts:26-30 | The trimmed value of the first of the three names that is not blank, else 'Nom inconnu'; never empty and never padded with whitespace |
| `OpenFoodFacts.NormalizeFood` | src/api/openFoodFacts.ts:23-39 | The id is the code whenever one is present, the empty string included, and the fallback otherwise. The name and brand follow the first-non-blank rules. The image defaults to ''. The grade is lower-cased, or '' when missing. Each macro is its nutriment, or 0 when the nutriment or the whole `nutriments` object is missing. |
| `OpenFoodFacts.NormalizeFoodIsNormal` | src/api/openFoodFacts.ts:26-33 | Every normalised food has a non-empty trimmed name and brand and a lower-case grade |
| `OpenFoodFacts.NormalizeRoundTrip` | src/api/openFoodFacts.ts:23-39 | A food in normal form, written out as a product record and normalised again, comes back equal |
| `OpenFoodFacts.NormalizeIdempotent` | src/api/openFoodFacts.ts:23-39 | Normalising an already normalised food gives it back, whatever fallback id is offered |
| `OpenFoodFacts.SearchFoods` | src/api/openFoodFacts.ts:52-74 | A blank query gives `[]` with no request. Otherwise the trimmed query is sent, and the call fails with the search message exactly when the response is not ok. On success every returned product is normalised, in order, as many foods as products (none when `products` is missing). |
| `OpenFoodFacts.FetchFoodByBarcode` | src/api/openFoodFacts.ts:76-100 | A blank code gives null with no request. The call fails with the service message exactly when the trimmed code was sent and the response is not ok. A food is returned exactly when the response is ok, the status is 1 and a product is present, and that food is the normalised product. Every other case is the null "not found", kept apart from the error. |

## Left out

- Rendering, navigation, authentication and the `useMeals` context lookup: they hold no logic of the core.
- React scheduling is left out. Each operation is one atomic step on the current state. The model does not capture asynchronous ordering, out-of-order completion of write-backs, or `addMealFromDraft` reading a stale `draftMeal` from its closure. Write-back failures are swallowed in the source and do not appear in the model either.
- MealsContext.MealsProvider.Hydrate: the loaded values are a parameter. The JSON and `Number` decoding of src/storage/storage.ts is library behaviour, and so is its fallback from a corrupt or missing record to `[]` or null. The store holds decoded records, not their text.
- HTTP is left out: URL construction, `encodeURIComponent`, headers, `fetch` itself and JSON decoding of the response. The decoded response is the result of the `fetch` parameter. A response body that fails to parse is not modelled.
- Floating point is left out. Numbers are integers or NaN; fractions and infinities are not modelled. The goal is an integer.
- The random fallback id (`Math.random().toString(36).slice(2)`) and the clock are parameters. Their values are not modelled.
- Text.LowerChar, Text.LowerCase: map only the ASCII letters A–Z. JavaScript's `toLowerCase` also maps other Unicode upper-case letters. Strings are sequences of Unicode scalar values, not UTF-16 code units.
- Text.IntString: `Date.now().toString()` and `getFullYear()` are printed as plain decimal integers. The exponent notation JavaScript uses for very large numbers is not modelled.
- Calls after teardown: every operation of the provider except `Hydrate` requires `mounted`. After the cleanup at src/context/MealsContext.tsx:49-51 the provider is gone; React drops state updates on an unmounted component and the write-back effects never run again, so the model has no state to describe there.
- Search-result staleness suppression and barcode debounce are not present in the core's code, so they are not modelled.
