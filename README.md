# AutonoMeal cooking session and activity tracker in Dafny

This project models the two React components that hold the logic of the
AutonoMeal web app:

- **The guided cooking session** (`components/cooking-interface.tsx`). It holds
  the current step, one completion flag per step and an elapsed-seconds
  counter. It also has a running flag, the post-cooking photo view and the
  uploaded photo. The step list offers "Mark as Complete" only on the current,
  unfinished step. Completing the last step opens the photo view and stops the
  timer. The view shows a progress bar and an `MM:SS` clock.
- **The dashboard** (`components/dashboard.tsx`). It holds the offered recipes,
  with accept, reject and favourite actions. It holds the user's preference
  lists, which are edited through trimmed text inputs. The completion handler
  credits the profile with 50 XP and counts the recipe in a date-keyed ledger.
  The activity calendar turns that ledger into a 52-week grid of intensity
  cells plus two totals.

Modules, one file each:

| file | module | contents |
|---|---|---|
| `wrappers.dfy` | `Wrappers` | `Option`, standing in for `null` / `undefined` |
| `seqs.dfy` | `Seqs` | `Filter` (`Array.prototype.filter`) and its laws |
| `text.dfy` | `Text` | `trim`, non-negative `toString`, `padStart` |
| `recipes.dfy` | `Recipes` | the recipe record; lookups, removal and toggling by id |
| `cooking.dfy` | `Cooking` | the session as a value (`Session`) with one function per handler, and the component as a class (`CookingInterface`) whose methods are tied to those functions |
| `calendar.dfy` | `Calendar` | the ledger, intensity buckets, the grid loop, totals, the completion update |
| `dashboard.dfy` | `Dashboard` | profile and preference updates, and the component as a class (`Dashboard`) with one method per handler |

Dates are day numbers (`Calendar.Day`, an `int`): consecutive calendar dates
differ by one. `today`, and the grid's first day (the same date one year
earlier), are inputs.

Behaviours of the code that the model keeps as they are:

- The grid starts on the same calendar date one year back, 365 or 366 days
  before today (`dashboard.tsx:262`). Its last cell is `start + 363`, so it
  lies at least two days before today. The `future` branch never fires, and
  today's and yesterday's cooking never shows on the grid
  (`Calendar.NoFutureCells`). `Calendar.BuildGrid` still takes that branch
  whenever a cell lies after today.
- `handleStepComplete` itself has no guard. Only the rendering offers the
  button, and only for the current, unfinished step. `Cooking.StepCompleted`
  models the handler and `Cooking.Pressed` models the guarded button.
- The play/pause and reset buttons exist only in the step view. The photo
  view has no timer controls and is entered with the timer stopped, so the
  cooking time shown there stays fixed. The component class keeps "photo view
  on implies timer stopped" as part of its invariant, and
  `Cooking.PhotoViewFreezesTimer` proves that no tick or upload then moves
  the timer.
- In the photo view, "Complete Cooking" is disabled until a photo is stored,
  and "Skip Photo" always finishes. Finishing hands only the photo, or none,
  to the dashboard, which then closes the session.
- Favourites are a list. Toggling filters out every entry with the recipe's
  id, or appends the recipe.
- The ledger's counts are never checked. Every count that is neither 1 nor 2
  and is below 3 gives `none`, negative counts included. The invariant that
  counts are non-negative is kept as `Calendar.NonNegative`.
- Experience and recipes cooked start non-negative and only grow, so they are
  natural numbers. On them Dafny's `%` agrees with JavaScript's.

## Model

| member | source | states |
|---|---|---|
| `Cooking.Initial` | autonomeal-app/components/cooking-interface.tsx:45-50 | a new session is at step 0 and on track, with one flag per step and none of them set, the timer at 0 and stopped, no photo and the photo view off |
| `Cooking.CookingInterface.constructor` | autonomeal-app/components/cooking-interface.tsx:45-50 | mounting gives step 0, all flags false, timer 0 and stopped, no photo, photo view off |
| `Cooking.Ticked` | autonomeal-app/components/cooking-interface.tsx:53-61 | a tick adds exactly 1 while running and nothing while stopped; only the timer changes |
| `Cooking.TickedNAdds` | autonomeal-app/components/cooking-interface.tsx:53-61 | n ticks add exactly n seconds while running and none while stopped; step state is untouched |
| `Cooking.CookingInterface.Tick` | autonomeal-app/components/cooking-interface.tsx:56-58 | the interval callback changes the fields exactly as `Ticked` says, keeps the class invariant, and never moves the timer in the photo view |
| `Cooking.Toggled` | autonomeal-app/components/cooking-interface.tsx:203 | play/pause flips the running flag and changes nothing else |
| `Cooking.ToggledTwice` | autonomeal-app/components/cooking-interface.tsx:203 | play/pause twice restores the whole state |
| `Cooking.CookingInterface.PlayPause` | autonomeal-app/components/cooking-interface.tsx:200-207 | the button, present only in the step view, changes the fields exactly as `Toggled` says |
| `Cooking.Reset` | autonomeal-app/components/cooking-interface.tsx:211-214 | reset yields timer 0 and stopped from any state, and leaves steps and photo alone |
| `Cooking.ResetForgetsTimer` | autonomeal-app/components/cooking-interface.tsx:53-61 | reset gives the same state whatever ticks or toggles came before; no tick moves a reset timer |
| `Cooking.CookingInterface.ResetTimer` | autonomeal-app/components/cooking-interface.tsx:208-218 | the button, present only in the step view, changes the fields exactly as `Reset` says |
| `Cooking.PhotoViewFreezesTimer` | autonomeal-app/components/cooking-interface.tsx:97-180 | in the photo view the timer is stopped, so no tick and no upload changes the time shown |
| `Cooking.CountTrue` | autonomeal-app/components/cooking-interface.tsx:95 | the number of completed steps is at most the step count; it equals it iff all are done and is 0 iff none is |
| `Cooking.CountTrueSet` | autonomeal-app/components/cooking-interface.tsx:70-72 | setting a flag adds one completed step exactly when that flag was false |
| `Cooking.StepCompleted` | autonomeal-app/components/cooking-interface.tsx:69-82 | completing step i sets flag i and no other; the last step opens the photo view and stops the timer with `currentStep` kept; any other step moves to i+1 |
| `Cooking.CookingInterface.HandleStepComplete` | autonomeal-app/components/cooking-interface.tsx:69-82 | the handler changes the fields exactly as `StepCompleted` says |
| `Cooking.Offered` | autonomeal-app/components/cooking-interface.tsx:325 | a button is shown only while some step is undone; on a tracked session it is shown exactly for the current step in the step view |
| `Cooking.Pressed` | autonomeal-app/components/cooking-interface.tsx:325-333 | a click on a step whose button is not shown changes nothing; an offered one completes that step; the completed count never falls |
| `Cooking.PressedKeepsOnTrack` | autonomeal-app/components/cooking-interface.tsx:325-333 | through the buttons, the done steps stay exactly those before `currentStep`, plus the last one once the photo view is on |
| `Cooking.CookingInterface.MarkComplete` | autonomeal-app/components/cooking-interface.tsx:325-333 | a button click changes the fields exactly as `Pressed` says and keeps the session on track |
| `Cooking.CookStepsInOrder` | autonomeal-app/components/cooking-interface.tsx:69-82 | clicking steps 0..k-1 in order completes exactly k steps; clicking all N reaches the photo view with the timer stopped |
| `Cooking.Progress` | autonomeal-app/components/cooking-interface.tsx:95 | progress is completed over total steps, never above 1, and full iff every step is done |
| `Cooking.Percent` | autonomeal-app/components/cooking-interface.tsx:95 | for at least one step the percentage lies in [0, 100] and is 100 iff all steps are done |
| `Cooking.ProgressReachesFull` | autonomeal-app/components/cooking-interface.tsx:95 | completing every step in order brings progress to 100%, and no click lowers it |
| `Cooking.Uploaded` | autonomeal-app/components/cooking-interface.tsx:84-89 | a selected file replaces the stored photo, an empty selection keeps it, nothing else changes |
| `Cooking.UploadedLastWins` | autonomeal-app/components/cooking-interface.tsx:84-89 | after two uploads the later selected file is the one kept |
| `Cooking.CookingInterface.HandlePhotoUpload` | autonomeal-app/components/cooking-interface.tsx:84-89 | the change event changes the fields exactly as `Uploaded` says and keeps the class invariant |
| `Cooking.CookingInterface.HandleFinishCooking` | autonomeal-app/components/cooking-interface.tsx:91-93 | finishing hands over the stored photo, or none |
| `Cooking.CookingInterface.PressFinish` | autonomeal-app/components/cooking-interface.tsx:162-173 | "Complete Cooking" does nothing without a photo; otherwise, and always for "Skip Photo", the session finishes with the stored photo |
| `Cooking.FormatTime` | autonomeal-app/components/cooking-interface.tsx:63-67 | the clock is at least five characters wide, with the colon before the last two |
| `Cooking.Clock` | autonomeal-app/components/cooking-interface.tsx:66 | in `m:cc`, the minutes field is everything before the colon and the seconds field the two characters after it |
| `Cooking.FormatTimeWidth` | autonomeal-app/components/cooking-interface.tsx:63-67 | the clock is exactly five characters iff under 100 minutes |
| `Cooking.FormatTimeRoundTrip` | autonomeal-app/components/cooking-interface.tsx:63-67 | reading the two fields back gives secs < 60 and mins*60 + secs equal to the input |
| `Text.Digits` | autonomeal-app/components/cooking-interface.tsx:66 | `toString` gives at least one decimal digit and no leading zero; it has one digit iff n < 10 and at most two iff n < 100 |
| `Text.DigitsRoundTrip` | autonomeal-app/components/cooking-interface.tsx:66 | reading `toString`'s digits back gives the number |
| `Text.PadStart` | autonomeal-app/components/cooking-interface.tsx:66 | padding reaches the width and never cuts: the input is a suffix and everything before it is filler |
| `Text.Trim` | autonomeal-app/components/dashboard.tsx:177 | trim returns an infix with only whitespace cut on each side; a non-empty result has no whitespace at either end; the result is empty iff the input is all whitespace |
| `Text.TrimIdempotent` | autonomeal-app/components/dashboard.tsx:177 | trimming twice equals trimming once |
| `Seqs.Filter` | autonomeal-app/components/dashboard.tsx:172 | the filter keeps exactly the elements that pass the test and never grows the list |
| `Seqs.FilterConcat` | autonomeal-app/components/dashboard.tsx:172 | filtering works piecewise on concatenation, so survivors keep their relative order |
| `Seqs.FilterIdempotent` | autonomeal-app/components/dashboard.tsx:172 | filtering twice with one test equals filtering once |
| `Recipes.HasId` | autonomeal-app/components/dashboard.tsx:256-258 | `some` by id is true iff some entry has that id |
| `Recipes.FindById` | autonomeal-app/components/dashboard.tsx:163 | `find` returns nothing iff no entry has the id, and otherwise the first entry with it |
| `Recipes.WithoutId` | autonomeal-app/components/dashboard.tsx:171-174 | rejecting leaves no recipe with the id and keeps every recipe with another id; the list shrinks iff the id was present |
| `Seqs.FilterDrops` | autonomeal-app/components/dashboard.tsx:172 | a list holding an element that fails the test gets strictly shorter when filtered |
| `Recipes.WithoutAbsentId` | autonomeal-app/components/dashboard.tsx:171-174 | rejecting an id that is not offered is a no-op |
| `Recipes.WithoutIdIdempotent` | autonomeal-app/components/dashboard.tsx:171-174 | rejecting the same id twice equals rejecting it once |
| `Recipes.WithoutIdConcat` | autonomeal-app/components/dashboard.tsx:171-174 | rejecting works piecewise on any split of the list, so the others keep their order |
| `Recipes.RejectedNotFound` | autonomeal-app/components/dashboard.tsx:162-174 | after a reject, accepting that id (from the feed or "Cook Again") finds nothing |
| `Recipes.Toggle` | autonomeal-app/components/dashboard.tsx:245-254 | toggling flips whether the recipe's id is a favourite and leaves every other id's membership alone; a favourite id is removed, every entry with it and only those, and the list shrinks; otherwise the recipe itself is appended after the unchanged list |
| `Recipes.ToggleTwiceMembership` | autonomeal-app/components/dashboard.tsx:245-258 | two toggles restore whether any id is a favourite |
| `Recipes.ToggleTwiceRestores` | autonomeal-app/components/dashboard.tsx:245-254 | toggling a non-favourite on and off restores the very list |
| `Recipes.ToggleKeepsUnique` | autonomeal-app/components/dashboard.tsx:245-254 | favourites never hold two entries with the same id |
| `Recipes.WithoutIdKeepsUnique` | autonomeal-app/components/dashboard.tsx:249 | removal by id keeps ids unique |
| `Dashboard.Dashboard.constructor` | autonomeal-app/components/dashboard.tsx:61-160 | mounting stores the profile, recipes and history; no favourites, no selection, empty inputs, cooking view closed |
| `Dashboard.Dashboard.AcceptRecipe` | autonomeal-app/components/dashboard.tsx:162-169 | an id not offered changes nothing; otherwise the first recipe with it is selected and the cooking view opens; only those two fields may change |
| `Dashboard.Dashboard.RejectRecipe` | autonomeal-app/components/dashboard.tsx:171-174 | only the offered list changes, to the list without that id |
| `Dashboard.Dashboard.ToggleFavorite` | autonomeal-app/components/dashboard.tsx:245-254 | only the favourites change, to `Toggle` of the old list (removal by id, or the recipe appended), keeping ids unique |
| `Dashboard.Dashboard.IsFavorite` | autonomeal-app/components/dashboard.tsx:256-258 | true iff some favourite has the id |
| `Dashboard.AddEntry` | autonomeal-app/components/dashboard.tsx:176-187 | a blank input leaves the list; otherwise the trimmed input is appended, the old entries kept; added entries are non-empty and already trimmed |
| `Dashboard.RemoveEntry` | autonomeal-app/components/dashboard.tsx:202-210 | removing keeps exactly the entries different from the value |
| `Dashboard.AddThenRemove` | autonomeal-app/components/dashboard.tsx:176-210 | adding then removing an entry equals removing it alone |
| `Dashboard.RemoveTwice` | autonomeal-app/components/dashboard.tsx:202-210 | removing an entry twice equals removing it once |
| `Dashboard.AddTrimmedInput` | autonomeal-app/components/dashboard.tsx:177-182 | typing the input already trimmed makes no difference |
| `Dashboard.Dashboard.AddMissingIngredient` | autonomeal-app/components/dashboard.tsx:176-187 | only the missing-ingredients list and its input change: `AddEntry`, with the input cleared iff something was added |
| `Dashboard.Dashboard.AddDietaryRestriction` | autonomeal-app/components/dashboard.tsx:189-200 | only the restrictions list and its input change, as for ingredients |
| `Dashboard.Dashboard.AddCookingExperience` | autonomeal-app/components/dashboard.tsx:222-233 | only the cooking-experience list and its input change, as for ingredients |
| `Dashboard.Dashboard.RemoveMissingIngredient` | autonomeal-app/components/dashboard.tsx:202-210 | only the missing-ingredients list changes, by `RemoveEntry` |
| `Dashboard.Dashboard.RemoveDietaryRestriction` | autonomeal-app/components/dashboard.tsx:212-220 | only the restrictions list changes, by `RemoveEntry` |
| `Dashboard.Dashboard.RemoveCookingExperience` | autonomeal-app/components/dashboard.tsx:235-243 | only the cooking-experience list changes, by `RemoveEntry` |
| `Dashboard.Dashboard.BackToDashboard` | autonomeal-app/components/dashboard.tsx:355-358 | going back closes the cooking view and clears the selection, recording nothing |
| `Dashboard.Credit` | autonomeal-app/components/dashboard.tsx:369-373 | a completion adds exactly 50 XP and 1 recipe cooked; level, badges, name and preferences are unchanged |
| `Dashboard.CreditNAdds` | autonomeal-app/components/dashboard.tsx:369-373 | n completions add exactly 50n XP and n recipes, whatever the recipes were |
| `Dashboard.LevelProgress` | autonomeal-app/components/dashboard.tsx:457-459 | the level bar shows a value in [0, 1000) that differs from the experience by a multiple of 1000 |
| `Dashboard.LevelProgressCycles` | autonomeal-app/components/dashboard.tsx:457-459 | twenty completions fill exactly one level, so the bar returns to the same value |
| `Dashboard.Dashboard.CookingComplete` | autonomeal-app/components/dashboard.tsx:360-376 | the ledger becomes `Record(old, today)` and the profile `Credit(old)`; the session closes; the invariants hold |
| `Calendar.CountOn` | autonomeal-app/components/dashboard.tsx:280 | a date missing from the ledger reads as 0; the count is non-negative when the ledger's counts are |
| `Calendar.Record` | autonomeal-app/components/dashboard.tsx:362-367 | today's count becomes its old value (0 if absent) + 1; every other date keeps its count; non-negative counts stay so |
| `Calendar.RecordTotals` | autonomeal-app/components/dashboard.tsx:302-303 | a completion adds exactly 1 to the recipe total, and 1 to the cooking days iff the date had none |
| `Calendar.RecordRaisesCell` | autonomeal-app/components/dashboard.tsx:272-285 | a completion moves its day's cell up one level, capped at high |
| `Calendar.Bucket` | autonomeal-app/components/dashboard.tsx:282-285 | 1 is low, 2 medium, 3 or more high, anything else none: the rank is the count clamped to [0, 3], never future |
| `Calendar.BucketMonotone` | autonomeal-app/components/dashboard.tsx:282-285 | a larger count never gives a lighter cell |
| `Calendar.Classify` | autonomeal-app/components/dashboard.tsx:272-285 | a cell is future iff its date is after today; otherwise it is the bucket of that date's count or 0 |
| `Calendar.ClassifyIsLocal` | autonomeal-app/components/dashboard.tsx:272-280 | a cell depends only on its own date's count, and a future cell on nothing in the ledger |
| `Calendar.CellAt` | autonomeal-app/components/dashboard.tsx:269-270 | cell (w, d) is dated start + 7w + d |
| `Calendar.BuildGrid` | autonomeal-app/components/dashboard.tsx:266-300 | the loops build exactly 52 weeks of 7 cells, each the classified cell of its date |
| `Calendar.GridDays` | autonomeal-app/components/dashboard.tsx:262-270 | the cells lie in [start, start + 363], are distinct and increase week by week and day by day |
| `Calendar.NoFutureCells` | autonomeal-app/components/dashboard.tsx:262-276 | with the start one calendar year back, every cell is at least two days before today, so none is future |
| `Calendar.CookingDaysRemove` | autonomeal-app/components/dashboard.tsx:302 | the cooking-day count does not depend on the order the dates are visited in |
| `Calendar.RecipesTotalRemove` | autonomeal-app/components/dashboard.tsx:303 | the recipe total does not depend on the order the dates are visited in |
| `Calendar.TotalsBounds` | autonomeal-app/components/dashboard.tsx:302-303 | cooking days ≤ ledger entries, and, for non-negative counts, ≤ total recipes |
| `Calendar.Totals` | autonomeal-app/components/dashboard.tsx:302-303 | the loop yields the count of dates with a positive count and the sum of all counts, over the whole ledger |
| `Calendar.TwoDayExample` | autonomeal-app/components/dashboard.tsx:272-303 | counts 3 and 1 on consecutive days, the later one being today, give 2 cooking days, 4 recipes, and the cells high and low |

## Left out

- Rendering is left out: JSX, class strings, icons, tabs (and `activeTab`), the week/day transpose of the grid, month and weekday labels, and the `toLocaleDateString` tooltips.
- The "7 days" streak, the badge list and the "Recent Activity" text are left out. They are fixed display values with no rule behind them.
- Real dates and time zones are left out. The grid's cells are built at local midnight (`dashboard.tsx:262`, `:269-270`). `toISOString` (`:279`) reads them as UTC dates, so in every zone east of UTC each cell reads the previous date's ledger entry. The completion key (`:362`) is the UTC date of the moment of completion, so it depends on the time of day. Here a cell and a completion on the same date share one day number.
- `Calendar.BuildGrid` takes the first grid day as an input, with no precondition. Computing "the same date one year back" from a calendar date is not modelled; `Calendar.NoFutureCells` assumes its result is 365 or 366 days before today.
- `setInterval`, `clearInterval` and the effect cleanup are left out. Ticks are explicit calls to `Cooking.CookingInterface.Tick`.
- `File` objects are left out, except for whether a photo is present and its name.
- `console.log` calls are left out.
- The recipe's float `rating`, the `servings` label and `Math.round` of the percentage are left out.
- The text inputs' `onChange` handlers are left out. Callers assign `newIngredient`, `newRestriction` and `newCookingExperience` directly.
- JavaScript number semantics are left out: fractional or NaN counts, and the loss of precision of large integers. Counts, XP and the timer are unbounded integers.
- `Cooking.Percent` is defined only for a recipe with at least one step. With no steps the source computes NaN.
- `lib/api.ts`, `app.py` and `aitest.py` are not part of this model. They do network, storage and filesystem I/O.
- `components/bound.tsx` is a pasted error log, not code.
