# Meal planner core in Dafny

This project models the meal-planning logic of the meal planner's Express server (`server.js`), and proves what it promises. The logic has three parts.

- **Weekly plan** (`/weekly-plan` and `/shopping-list`):
  - the user's meals are split into a breakfast, a lunch and a dinner bucket, by exact match of their `time` string;
  - for each day from Monday to Sunday, one meal per slot is drawn at random from that slot's bucket;
  - a slot is `null` when its bucket is empty.
- **Shopping list** (`/shopping-list`):
  - every planned meal's `ingredients` string is split on commas and each token is trimmed;
  - the tokens are pushed onto a running array, day by day and breakfast, lunch, dinner;
  - `[...new Set(array)]` then reduces the array to its distinct tokens, in order of first occurrence.
- **Meal listing** (`/meals`): the user's meals are sorted newest first by the seconds of their creation timestamp, using JavaScript's stable `Array.prototype.sort`.

Files and modules:

| file | module | contents |
|---|---|---|
| `meal.dfy` | `MealModel` | the stored meal record, the three slots, the day names |
| `seq_facts.dfy` | `SeqFacts` | general facts about sequences that the folds over meals, plan entries and tokens use |
| `js_strings.dfy` | `JsStrings` | `String.prototype.split` on one character and `String.prototype.trim`, with `Join` as the inverse of split |
| `weekly_plan.dfy` | `WeeklyPlan` | the buckets, `pickRandom`, and the plan generator shared by both routes |
| `shopping_list.dfy` | `ShoppingList` | the consolidation loops, the `Set` step as a loop and as a specification function, and the route |
| `meal_listing.dfy` | `MealListing` | the newest-first sort as an in-place stable insertion sort on an array, specified by a function on sequences |
| `scenarios.dfy` | `Scenarios` | worked examples on concrete meals |

How the source's imperative parts are modelled:

- Consolidation (`let allIngredients = []` plus nested `forEach` and `push`) is the method `ShoppingList.Consolidate`. Its loops are proved equal to the fold `AllTokens`.
- The `Set` step is the loop method `ShoppingList.DedupInOrder`, proved equal to `Dedup`.
- The listing sort works in place on an `array<Meal>`, like `.sort`. It is proved equal to the function `NewestFirst`.

`Math.random()` is an input: `Draws` gives the draw for each day and slot, and every draw lies in [0, 1). With that, the generator is a total, deterministic function, and its index `Math.floor(r * n)` is proved to lie in `[0, n)`.

## Model

| member | source | states |
|---|---|---|
| WeeklyPlan.Bucket | server.js:146-148 | the bucket holds exactly the meals whose `time` is the slot's exact, case-sensitive name, each as often as in the input |
| WeeklyPlan.BucketAppend | server.js:146-148 | filtering distributes over concatenation, so a bucket keeps the input's order |
| WeeklyPlan.ChooseIndex | server.js:150 | `Math.floor(r * n)` for a draw `r` in [0, 1) is an index in `[0, n)` |
| WeeklyPlan.Pick | server.js:150-156 | `bucket.length ? pickRandom(bucket) : null` is `null` exactly when the bucket is empty, and otherwise a meal of the bucket |
| WeeklyPlan.PlanEntry | server.js:152-157 | one day's entry of `days.map(...)`: its `day` is the day's name, each slot is `null` exactly when its bucket is empty, and otherwise holds a meal of that bucket |
| WeeklyPlan.GenerateWeeklyPlan | server.js:151-157 | the plan has exactly 7 entries, whose `day` fields are Monday to Sunday in order, for any meals, including none |
| WeeklyPlan.PlanSlot | server.js:152-157 | slot `s` of day `d` is drawn from slot `s`'s bucket with that day and slot's draw |
| WeeklyPlan.PlanSlotSpec | server.js:146-157 | a slot is `null` if and only if no meal has that slot's `time`; a non-null slot holds one of the user's meals whose `time` is exactly the slot's name |
| WeeklyPlan.UnrecognisedTimeNeverPlanned | server.js:146-148 | a meal whose `time` is not exactly "Breakfast", "Lunch" or "Dinner" never appears in any slot of any day |
| WeeklyPlan.PlanSlotDependsOnOwnDraw | server.js:150-157 | a slot's meal depends only on the meals and the draw for that day and slot |
| JsStrings.Split | server.js:191 | `split(",")` gives at least one piece, and no piece contains the separator |
| JsStrings.JoinSplit | server.js:191 | joining the pieces of a split with the separator gives back the string |
| JsStrings.SplitNoSeparator | server.js:191 | a string without the separator splits into itself alone |
| JsStrings.SplitPieceThenSeparator | server.js:191 | a separator-free piece followed by the separator splits off as the first piece |
| JsStrings.SplitJoin | server.js:191 | splitting a join of separator-free pieces gives back those pieces, so split and join are inverse |
| JsStrings.IsWhiteSpace | server.js:191 | the characters `trim()` removes: the ECMAScript WhiteSpace and LineTerminator code points (definition; used by `LeadingWhiteSpace` and `TrailingWhiteSpace`) |
| JsStrings.LeadingWhiteSpace | server.js:191 | counts the longest prefix of ECMAScript white space and line terminators |
| JsStrings.TrailingWhiteSpace | server.js:191 | counts the longest suffix of ECMAScript white space and line terminators |
| JsStrings.TrimStart | server.js:191 | the string without its leading white space (definition; its properties are stated by `Trim` and `TrimIsInfix`) |
| JsStrings.TrimEnd | server.js:191 | the string without its trailing white space (definition; its properties are stated by `Trim` and `TrimIsInfix`) |
| JsStrings.Trim | server.js:191 | `trim()` returns a string with no white space or line terminator at either end |
| JsStrings.TrimIsInfix | server.js:191 | the trimmed string is the contiguous piece of the input after its leading white space, and it contains every non-white-space character of the input |
| JsStrings.TrimOfTrimmed | server.js:191 | a string with no white space at either end is its own trim |
| JsStrings.TrimIdempotent | server.js:191 | trimming twice is trimming once |
| JsStrings.TrimAll | server.js:191 | `.map(i => i.trim())` keeps the number of tokens |
| JsStrings.TrimAllAt | server.js:191 | token `k` of the mapped array is the trim of token `k` |
| ShoppingList.HasIngredients | server.js:190 | the guard `meal && meal.ingredients`: a meal is there and its `ingredients` is a present, non-empty string (definition; `MealTokens` states what it implies) |
| ShoppingList.MealTokens | server.js:190-191 | a slot contributes no token if and only if its meal is `null` or its `ingredients` is missing or empty |
| ShoppingList.IngredientTokens | server.js:191 | a present, non-empty ingredient string contributes at least one token, even without a comma |
| ShoppingList.MealTokensTrimmed | server.js:190-191 | every token a slot contributes is trimmed |
| ShoppingList.SlotMeals | server.js:189 | the array `[day.breakfast, day.lunch, day.dinner]`, in that order (definition; used by `PushDayTokens` and `SlotsTokensOfDay`) |
| ShoppingList.EntryTokens | server.js:189-192 | the tokens one day pushes, breakfast's then lunch's then dinner's (definition; `SlotsTokensOfDay` and `EntryTokensMembership` state its properties) |
| ShoppingList.AllTokens | server.js:187-194 | the final `allIngredients`: the days' tokens in day order (definition; `Consolidate`, `AllTokensMembership` and `AllTokensTrimmed` state its properties) |
| ShoppingList.SlotsTokensOfDay | server.js:189-193 | pushing breakfast's, lunch's and dinner's tokens in turn adds the day's tokens in slot order |
| ShoppingList.AllTokensAppend | server.js:188-194 | the running array of a plan split in two is the first part's array followed by the second part's |
| ShoppingList.EntryTokensMembership | server.js:189-192 | a token is among a day's tokens if and only if it is a token of one of the day's slot meals |
| ShoppingList.TokenOfPlanSlots | server.js:188-192 | a token of a plan's days is exactly a token of the meal in some slot of some day |
| ShoppingList.TokenOfPlanLastDay | server.js:188-194 | a token of a non-empty plan is a token of its earlier days or of its last day, and conversely |
| ShoppingList.AllTokensMembership | server.js:187-194 | the running array holds exactly the tokens of the planned days |
| ShoppingList.AllTokensTrimmed | server.js:187-194 | every entry of the running array is trimmed |
| ShoppingList.Consolidate | server.js:187-194 | the nested `forEach`/`push` loops leave in `allIngredients` exactly the fold `AllTokens` of the plan |
| ShoppingList.PushDayTokens | server.js:189-193 | the inner loop over the three slots appends exactly the day's tokens |
| ShoppingList.Dedup | server.js:196 | `[...new Set(xs)]` has no value twice and has exactly the values of `xs` |
| ShoppingList.FirstIndex | server.js:196 | the first position of a value in a sequence |
| ShoppingList.FirstIndexUnique | server.js:196 | a position with the value and no earlier copy is the first position |
| ShoppingList.FirstIndexAppend | server.js:196 | appending does not move an existing value's first position |
| ShoppingList.DedupFirstOccurrenceOrder | server.js:196 | the distinct values come in the order of their first occurrence in the input |
| ShoppingList.DedupAbsorbsSeen | server.js:196 | appending values already present does not change the distinct values |
| ShoppingList.DedupInOrder | server.js:196 | the loop that adds each value not yet in the `Set` returns exactly `Dedup` |
| ShoppingList.ShoppingListOf | server.js:196 | `uniqueIngredients`: the `Set` step applied to the final running array (definition; `ShoppingListContents` and `ShoppingListOrder` state its properties) |
| ShoppingList.BuildShoppingList | server.js:186-196 | consolidation followed by the `Set` step yields `ShoppingListOf(plan)` |
| ShoppingList.LastDayTokensListed | server.js:188-194 | the last day's tokens are in the running array |
| ShoppingList.SameTokensEveryDay | server.js:187-196 | when every day contributes the same tokens, the shopping list is those tokens without repeats |
| ShoppingList.ShoppingListContents | server.js:186-196 | the shopping list has no duplicates, every entry is trimmed, and it holds exactly the tokens of the meals in the plan's slots |
| ShoppingList.ShoppingListOrder | server.js:186-196 | the entries come in order of first occurrence in the running array: by day, then breakfast, lunch, dinner, then token order |
| ShoppingList.PlanTokensComeFromMeals | server.js:173-191 | every token of a generated plan comes from one of the user's meals whose `time` names a slot |
| ShoppingList.ShoppingListRoute | server.js:170-196 | the route's list is the shopping list of the shared generator's plan, has no duplicates, and every entry comes from a meal whose `time` names a slot |
| MealListing.Insert | server.js:129 | one step of a stable insertion sort under the comparator `b.createdAt.seconds - a.createdAt.seconds`: the meal goes after every meal at least as new (definition; `InsertPermutes`, `InsertOrdered`, `InsertCreatedAt` and `InsertLandsAt` state its properties) |
| MealListing.CreatedAtAppend | server.js:129 | selecting the meals of one creation second distributes over concatenation |
| MealListing.InsertPermutes | server.js:129 | an insertion step adds the meal and keeps every other meal |
| MealListing.InsertNoOlderThan | server.js:129 | inserting a meal no older than a bound into meals no older than it keeps that property |
| MealListing.InsertOrdered | server.js:129 | an insertion step keeps a newest-first sequence newest first |
| MealListing.NewestFirst | server.js:127-129 | the stable newest-first sort of the fetched meals, by insertion (definition; `NewestFirstSorts`, `NewestFirstStable` and `NewestFirstUnique` state its properties) |
| MealListing.NewestFirstSorts | server.js:127-129 | the listing is a permutation of the fetched meals, ordered by non-increasing `createdAt.seconds` |
| MealListing.InsertCreatedAt | server.js:129 | an insertion step puts the meal after the meals of its own second that are already there |
| MealListing.NewestFirstStable | server.js:129 | the sort is stable: meals of the same second keep their fetched order |
| MealListing.InCreatedAt | server.js:129 | every meal occurs among the meals of its own second |
| MealListing.NewestFirstUnique | server.js:129 | two newest-first sequences with the same meals, in the same order, for every second are equal, so every stable sort with this comparator gives the same listing |
| MealListing.SameFront | server.js:129 | two such sequences start with the same meal |
| MealListing.SameRest | server.js:129 | removing that first meal from both keeps the meals of each second equal |
| MealListing.NewestAtFront | server.js:129 | no meal of a newest-first sequence is newer than its first |
| MealListing.CreatedAtMembers | server.js:129 | the meals selected for a second come from the sequence and were created in that second |
| MealListing.InsertLandsAt | server.js:129 | an insertion puts the meal after the meals at least as new and before the strictly older ones that end the sequence |
| MealListing.SortNewestFirst | server.js:129 | sorting the array in place leaves exactly `NewestFirst` of its old contents |
| MealListing.SortStep | server.js:129 | one outer-loop pass extends the sorted prefix by one meal and leaves the rest of the array as it was |
| MealListing.InsertNext | server.js:129 | one insertion step in place: the prefix becomes `Insert` of the old prefix and the next meal, and the rest is unchanged |
| MealListing.InsertedAt | server.js:129 | the shifted prefix with the meal in the gap is `Insert` of the old prefix and the meal |
| MealListing.ListMeals | server.js:127-129 | the listing is newest first, holds exactly the fetched meals, and keeps the fetched order among meals of the same second |
| Scenarios.EmptyWeek | server.js:146-196 | with no meals, every slot of all seven days is `null` and the shopping list is empty |
| Scenarios.TwoIngredients | server.js:191 | text with a single comma gives the two trimmed pieces around it |
| Scenarios.TrimLeadingSpace | server.js:191 | `" milk".trim()` is `"milk"` |
| Scenarios.TrimBothSides | server.js:191 | `" eggs ".trim()` is `"eggs"` |
| Scenarios.TrimOats | server.js:191 | `"oats".trim()` is `"oats"` |
| Scenarios.TrimEggs | server.js:191 | `"eggs".trim()` is `"eggs"` |
| Scenarios.TrimBread | server.js:191 | `"bread".trim()` is `"bread"` |
| Scenarios.OatsMilkSplit | server.js:191 | `"oats, milk"` splits into `"oats"` and `" milk"` |
| Scenarios.OatsMilkText | server.js:191 | `"oats, milk"` gives the tokens `"oats"`, `"milk"` |
| Scenarios.EggsMilkSplit | server.js:191 | `"eggs, milk"` splits into `"eggs"` and `" milk"` |
| Scenarios.EggsMilkText | server.js:191 | `"eggs, milk"` gives the tokens `"eggs"`, `"milk"` |
| Scenarios.EggsBreadSplit | server.js:191 | `" eggs ,bread"` splits into `" eggs "` and `"bread"` |
| Scenarios.EggsBreadText | server.js:191 | `" eggs ,bread"` gives the tokens `"eggs"`, `"bread"` |
| Scenarios.TrailingCommaSplit | server.js:191 | `"a,"` splits into `"a"` and `""` |
| Scenarios.TrailingCommaText | server.js:191 | `"a,"` gives the tokens `"a"` and the empty token |
| Scenarios.OatsTokens | server.js:190-191 | the oats breakfast contributes `"oats"`, `"milk"` |
| Scenarios.OnlyOatsPlan | server.js:146-157 | with only the oats breakfast, every day has it for breakfast and `null` for lunch and dinner |
| Scenarios.TwoBreakfastsSplitTheDraw | server.js:146-157 | with two breakfasts, a day's breakfast is the first for a draw below one half and the second otherwise, since `Math.floor(r * 2)` is the index |
| Scenarios.SecondOfTwoBreakfasts | server.js:146-157 | a Monday breakfast draw of 0.5 over two breakfasts gives the second |
| Scenarios.DedupPair | server.js:196 | two different tokens pass the `Set` step unchanged |
| Scenarios.OatsDayTokens | server.js:189-191 | a day with only the oats breakfast contributes `"oats"`, `"milk"` |
| Scenarios.OnlyOatsWeek | server.js:173-196 | with only the oats breakfast, the shopping list is `"oats"`, `"milk"` |
| Scenarios.LowerCaseTimeNeverPlanned | server.js:146-148 | a meal tagged `"breakfast"` in lower case is never planned |
| Scenarios.TrailingCommaGivesEmptyToken | server.js:190-191 | a meal whose ingredients are `"a,"` contributes `"a"` and an empty token |
| Scenarios.EggsMilkTokens | server.js:190-191 | a meal with `"eggs, milk"` contributes `"eggs"`, `"milk"` |
| Scenarios.EggsBreadTokens | server.js:190-191 | a meal with `" eggs ,bread"` contributes `"eggs"`, `"bread"` |
| Scenarios.OneDayTokens | server.js:188-194 | a one-day plan's running array is that day's tokens |
| Scenarios.DedupRepeatOfFirst | server.js:196 | a repeat of the first token is dropped, and the rest keep their first-seen order |
| Scenarios.SharedEggs | server.js:186-196 | two meals of one day that both list eggs, with different spacing, put `"eggs"` on the list once, ahead of `"milk"` and `"bread"` |

## Left out

- The Express app, middleware, view rendering and `app.listen` are framework plumbing and are not modelled.
- Firebase sign-up and login, session handling and the `isAuthenticated` redirect are not modelled. They are external services and session state.
- The Firestore reads and writes are not modelled. The fetched meals are an input sequence, and adding a meal is not modelled.
- The `catch` branches that answer 500 (server.js:132-134, server.js:160-162, server.js:198-200) are not modelled. Besides failures of that I/O, they also catch the `TypeError`s that data outside the modelled types raises. One is a missing `createdAt` in the listing sort. Another is a truthy `ingredients` that is not a string, which has no `split`.
- `Math.random()` is an input, `Draws`, and each draw lies in [0, 1). For a given draw the slot's meal is fixed: it is `bucket[floor(r * |bucket|)]`. What is left out is the distribution of `Math.random()`, so the model says nothing about how likely each meal is.
- WeeklyPlan.ChooseIndex: `Math.random() * arr.length` is computed on exact reals, so double-precision rounding is left out. For bucket lengths far below 2^53 the rounded product also stays below the length.
- The plan code is duplicated verbatim in the two routes (server.js:146-157 and server.js:173-184). It is modelled once, as `GenerateWeeklyPlan`, and both routes use it.
- `serverTimestamp()` is modelled as the integer `seconds` of the stored timestamp. The sort compares only seconds, so nanoseconds play no part.
- A meal whose `createdAt` is missing is not modelled. With two or more meals, `b.createdAt.seconds` then throws a `TypeError` at server.js:129, and the whole listing fails with the 500 "Error loading meals.". A `createdAt` without numeric `seconds` is not modelled either. The comparator would then return `NaN`.
- The document `id` that the listing adds to each meal is not modelled. It does not take part in the sort.
- The view templates that render the plan, the list and the listing are not modelled.
- Non-string field values are not modelled. `time` and `ingredients` are optional strings, so a truthy `ingredients` means a present, non-empty string. Another value type, such as an array, would behave differently in `meal.ingredients.split`.
