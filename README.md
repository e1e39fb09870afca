# Habit spacer: a Dafny model of the habit state engine

This project models the core of a small habit tracker. Each habit records the calendar
days on which it was completed. Its next due date follows an exponential backoff: after
the n-th completion the habit is due 2^(n-1) days after the base date.

Three source files are modelled:

- `src/HabitContext.tsx` (module `HabitContext`). It defines the `Habit` record and the
  store object `HabitStore`, whose `habits` sequence four mutators replace:
  `addHabit`, `editHabit`, `deleteHabit` and `toggleHabitCompletion`. It also defines the
  due-date scheduler `calculateNextDueDate`. The sequences the mutators build with
  `map`/`filter` are the pure functions `Edited`, `Deleted` and `ToggleAll`. The toggle
  callback reassigns local variables step by step, so it is the method `ToggleEntry`,
  proved against the function `Toggled`.
- `src/HabitTracker.tsx` (module `HabitTracker`). The 14-day display window is the
  function `Window`. The anchor navigation is `NextAnchor`. The component state
  (`startDate`, `dates`) is the class `Tracker`.
- `src/AddHabitForm.tsx` (module `AddHabitForm`). URL normalisation is the function
  `NormalizeUrl`, and the form's local reassignment is the method `FormatUrl`. The two
  input fields and `handleAddHabit` form the class `Form`, which calls the store.

Two helper modules hold shared definitions:

- `Text` holds JavaScript's `trim` and `startsWith` on `seq<char>`. `IsSpace` is the set
  of characters ECMAScript's trim strips.
- `Calendar` represents a calendar day as an integer count of days since the epoch. A
  timestamp is a day plus an opaque time of day. Adding n days moves the day by n and
  keeps the time of day.

The clock and the id generator are parameters. Every method that reads the clock in the
source takes `now: Timestamp`, and `addHabit` takes the new `id`.

The code raises no validation or not-found errors, and a few of its choices are easy to
miss:

- `addHabit` itself does not reject a blank name. Only the form checks the name
  (`src/AddHabitForm.tsx:17`). `HabitStore.AddHabit` appends whatever it is given.
- `editHabit` and `toggleHabitCompletion` with an unknown id change nothing. They raise
  no error (`EditUnknownId`, `ToggleUnknownId`).
- `editHabit` stores the new name and url as given, without trimming.
- The due date after a toggle is computed from the NEW count but the OLD
  `completedDates` (`src/HabitContext.tsx:169`). The base is therefore the last day
  completed before the toggle, not the day just toggled (`ToggleDueFromPreviousLast`).
- The navigation step is the constant 14. The window is 3 days before the anchor plus 11
  days from it.

## Model

| member | source | states |
|---|---|---|
| `Calendar.AddDays` | src/HabitContext.tsx:141 | `setDate(getDate() + n)` on a copy: the day moves by exactly n and the time of day is kept (also used at src/HabitTracker.tsx:19, 24 and 37) |
| `Calendar.AddDaysAdditive` | src/HabitTracker.tsx:37 | two moves by whole days equal one move by their sum, and a move by 0 changes nothing |
| `Calendar.StartOfDay` | src/HabitContext.tsx:138 | `new Date("YYYY-MM-DD")` is midnight at the start of that day |
| `Text.StartsWith` | src/AddHabitForm.tsx:14 | `startsWith` holds exactly when the prefix is no longer than the string and agrees with it character by character |
| `Calendar.Pow2` | src/HabitContext.tsx:137 | the backoff factor `Math.pow(2, n)` as an exact natural number, at least 1 |
| `Text.Trim` | src/AddHabitForm.tsx:13 | JavaScript `trim`: the result neither starts nor ends with whitespace, and it is empty exactly when the input is all whitespace |
| `Text.TrimIsInfix` | src/AddHabitForm.tsx:13 | the trimmed string is the part of the input between a whitespace-only prefix and a whitespace-only suffix |
| `Text.TrimOfTrimmed` | src/AddHabitForm.tsx:18 | trimming a string that is already trimmed returns it unchanged |
| `Text.TrimIdempotent` | src/HabitContext.tsx:96-100 | trimming twice equals trimming once, so the second trim in `addHabit` of the form's already-trimmed URL changes nothing |
| `HabitContext.DueBase` | src/HabitContext.tsx:138 | the base `completedDates[length - 1]`, falling back to `today`: now when the list is empty, otherwise midnight of the last day in the list |
| `HabitContext.NextDueDate` | src/HabitContext.tsx:131-143 | with count 0 the habit is due now; otherwise it is due on a strictly later day than the base (the last element of `completedDates` at the start of its day, or now when there is none), at the base's time of day |
| `HabitContext.BackoffDoubles` | src/HabitContext.tsx:136-141 | one more completion doubles the interval between the base and the due date |
| `HabitContext.BackoffFirstIntervals` | src/HabitContext.tsx:136-141 | counts 1, 2, 3 and 4 give intervals of 1, 2, 4 and 8 days |
| `HabitContext.Without` | src/HabitContext.tsx:160 | `filter(d => d !== day)` removes every occurrence of the day and keeps every other day; a list without the day is returned unchanged |
| `HabitContext.WithoutConcat` | src/HabitContext.tsx:160 | the filter distributes over concatenation, so the kept days stay in their original order |
| `HabitContext.WithoutKeepsLast` | src/HabitContext.tsx:138-160 | un-completing any day but the last leaves the last completed day, the scheduler's next base, in place |
| `HabitContext.WithoutDistinct` | src/HabitContext.tsx:160 | in a list without duplicates, removing a present day shortens it by exactly one and leaves it without duplicates |
| `HabitContext.WithoutAppended` | src/HabitContext.tsx:160-164 | removing a day just appended to a list that lacked it gives back that list |
| `HabitContext.Toggled` | src/HabitContext.tsx:151-173 | the toggle callback flips membership of the day and leaves every other day's membership alone; a present day is filtered out by `Without` (order kept) and the count goes down to max(0, count-1); an absent day is appended at the end and the count goes up by one; id, name and url are kept; the due date is the scheduler's result for the new count over the old `completedDates` |
| `HabitContext.ToggleEntry` | src/HabitContext.tsx:153-171 | the callback written with step-by-step local reassignment returns exactly `Toggled` of the habit and the calendar day of `date` |
| `HabitContext.ToggleKeepsConsistent` | src/HabitContext.tsx:158-166 | if the count equals the number of completed days and no day repeats before a toggle, both still hold after it |
| `HabitContext.ToggleTwiceAbsent` | src/HabitContext.tsx:160-164 | toggling an absent day twice restores the exact `completedDates` and the count |
| `HabitContext.ToggleTwicePresent` | src/HabitContext.tsx:160-165 | toggling a present day twice on a consistent habit restores the count and the set of completed days and keeps the habit consistent; the day moves to the end of the list |
| `HabitContext.ToggleDueFromPreviousLast` | src/HabitContext.tsx:164-169 | completing a new day on a habit with earlier completions makes it due 2^count days after the start of the previously last completed day, never 2^count days after the day just completed |
| `HabitContext.ToggleBeyondDateRange` | src/HabitContext.tsx:137-142 | completing a new day at count 27 or more, from a base not before the epoch, gives a due day past the last day a JavaScript Date can hold (10^8 days after the epoch) |
| `HabitContext.FirstCompletionDueTomorrow` | src/HabitContext.tsx:162-169 | the first completion of a fresh habit sets the count to 1 and makes it due one day after now |
| `HabitContext.UncompleteOnlyDayDueNow` | src/HabitContext.tsx:158-169 | un-completing the only completed day empties the list and makes the habit due now |
| `HabitContext.Edited` | src/HabitContext.tsx:110-116 | the edit map keeps length and order; matching habits get the new name and url and keep id, dates, count and due date; all other habits are identical |
| `HabitContext.Deleted` | src/HabitContext.tsx:122-124 | the delete filter keeps exactly the habits whose id differs and never grows the list; an unknown id leaves the list unchanged |
| `HabitContext.ToggleAll` | src/HabitContext.tsx:151-174 | the toggle map keeps length, order, every id, name and url; only habits with the matching id change, and each becomes its `Toggled` value |
| `HabitContext.DeletedConcat` | src/HabitContext.tsx:123 | the delete filter distributes over concatenation, so the survivors keep their relative order |
| `HabitContext.DeleteIdempotent` | src/HabitContext.tsx:123 | deleting an id twice gives the same list as deleting it once |
| `HabitContext.EditUnknownId` | src/HabitContext.tsx:110-116 | editing an id no habit has leaves the list unchanged |
| `HabitContext.ToggleUnknownId` | src/HabitContext.tsx:151-174 | toggling for an id no habit has leaves the list unchanged |
| `HabitContext.AddKeepsInvariant` | src/HabitContext.tsx:94-101 | appending a habit with a fresh id, no completions and count 0 keeps ids distinct and every habit consistent |
| `HabitContext.EditKeepsInvariant` | src/HabitContext.tsx:111-115 | an edit keeps ids distinct and every habit consistent |
| `HabitContext.DeleteKeepsUniqueIds` | src/HabitContext.tsx:123 | deleting keeps ids distinct |
| `HabitContext.DeleteKeepsInvariant` | src/HabitContext.tsx:123 | deleting keeps ids distinct and every habit consistent |
| `HabitContext.ToggleKeepsInvariant` | src/HabitContext.tsx:151-174 | a toggle keeps ids distinct and every habit consistent |
| `HabitContext.HabitStore.constructor` | src/HabitContext.tsx:70 | the store starts with no habits |
| `HabitContext.HabitStore.AddHabit` | src/HabitContext.tsx:92-102 | the new list is the old list followed by one habit with the given id, trimmed name and url, no completed days, count 0 and due now |
| `HabitContext.HabitStore.EditHabit` | src/HabitContext.tsx:110-116 | the new list is `Edited` of the old one |
| `HabitContext.HabitStore.DeleteHabit` | src/HabitContext.tsx:122-124 | the new list is `Deleted` of the old one |
| `HabitContext.HabitStore.ToggleHabitCompletion` | src/HabitContext.tsx:150-175 | the loop that maps the callback over the habits leaves exactly `ToggleAll` of the old list, for the calendar day of `date` |
| `HabitTracker.Window` | src/HabitTracker.tsx:15-27 | the window has exactly 3 + 11 = 14 entries, and entry k is the anchor moved by k - 3 days |
| `HabitTracker.WindowAroundAnchor` | src/HabitTracker.tsx:17-26 | the first three entries are anchor-3, anchor-2 and anchor-1, the anchor is at index 3, and the last entry is anchor+10 |
| `HabitTracker.WindowConsecutive` | src/HabitTracker.tsx:17-27 | each entry is the day after the previous one at the same time of day, so days strictly ascend with no gaps and no duplicates |
| `HabitTracker.NextAnchor` | src/HabitTracker.tsx:30-38 | `today` gives now; `back` and `forward` move the anchor by -14 and +14 days and keep its time of day |
| `HabitTracker.NavigateRoundTrip` | src/HabitTracker.tsx:36-37 | forward then back, or back then forward, returns the original anchor |
| `HabitTracker.NavigateTodayForgetsAnchor` | src/HabitTracker.tsx:32-34 | `today` gives the same anchor, now, whatever the previous anchor was |
| `HabitTracker.WindowShifts` | src/HabitTracker.tsx:15-37 | the window of an anchor moved forward or back is the old window with every entry moved by the same 14 days |
| `HabitTracker.Tracker.constructor` | src/HabitTracker.tsx:8-13 | on mount the anchor is now and the window is built from it |
| `HabitTracker.Tracker.UpdateDates` | src/HabitTracker.tsx:15-28 | the dates become `Window` of the unchanged anchor |
| `HabitTracker.Tracker.NavigateDates` | src/HabitTracker.tsx:30-41 | the anchor becomes `NextAnchor` of the old anchor, and the window follows it |
| `AddHabitForm.NormalizeUrl` | src/AddHabitForm.tsx:13-16 | the formatted URL is empty exactly when the field is all whitespace; otherwise it starts with `http://` or `https://`; it is always trimmed |
| `AddHabitForm.NormalizeBlankUrl` | src/AddHabitForm.tsx:13-14 | an empty or whitespace-only URL becomes the empty string, with no scheme added |
| `AddHabitForm.NormalizeUrlCases` | src/AddHabitForm.tsx:13-15 | a trimmed URL that already starts with `http://` or `https://` passes through unchanged; any other non-empty trimmed URL becomes exactly `http://` followed by it |
| `AddHabitForm.NormalizeUrlIdempotent` | src/AddHabitForm.tsx:13-18 | normalising an already normalised URL returns it unchanged |
| `AddHabitForm.FormatUrl` | src/AddHabitForm.tsx:13-16 | the step-by-step reassignment of `formattedUrl` computes exactly `NormalizeUrl` of the field |
| `AddHabitForm.Form.constructor` | src/AddHabitForm.tsx:8-9 | both input fields start empty |
| `AddHabitForm.Form.HandleAddHabit` | src/AddHabitForm.tsx:12-22 | a name that trims to empty adds nothing and leaves both fields unchanged; otherwise exactly one habit with the trimmed name, the normalised URL, no completions, count 0 and due now is appended, and both fields are cleared |

## Left out

- Persistence (`src/HabitContext.tsx:73-85`): loading from and saving to `localStorage`, with JSON parsing, is browser I/O. In the source the save is skipped while `habits` is empty (line 82), so deleting the last habit is never written back. The model does not capture this.
- React plumbing: `createContext`, `useContext`, `useHabits`, the provider and re-rendering (`src/HabitContext.tsx:57`, `:178-200`). The store is an explicit object. The effect that rebuilds the window when `startDate` changes (`src/HabitTracker.tsx:11-13`) runs at the end of `Tracker.NavigateDates` and of the constructor.
- Rendering: `src/HabitItem.tsx`, `src/HabitList.tsx`, `src/DateNavigation.tsx` and `src/App.tsx` are not part of this model. This includes the per-cell membership and due-day checks at `src/HabitItem.tsx:83-85`.
- Clock and id generation: `new Date()` and `Date.now()` are parameters (`now`, `id`). Uniqueness of ids is therefore a precondition of `AddKeepsInvariant`, not something `addHabit` guarantees.
- Calendar and time zones: days are integers and timestamps are a day plus an opaque time of day. The model ignores month lengths, daylight-saving shifts, and the mismatch between local-time `setDate` and the UTC day taken by `toISOString().split('T')[0]`. `new Date("YYYY-MM-DD")` is taken as the start of that day (`Calendar.StartOfDay`).
- ISO strings: `completedDates` and `dueDate` are values of `Day` and `Timestamp`, not their `YYYY-MM-DD` and ISO 8601 string forms. The `|| today` fallback at `src/HabitContext.tsx:138` is modelled for the empty list only; stored dates are never empty strings.
- HabitContext.HabitStore.ToggleHabitCompletion: does not model JavaScript's date range. A Date holds at most 10^8 days after the epoch. A toggle that takes the count to 28 or more adds 2^27 = 134,217,728 days or more at src/HabitContext.tsx:141. For any base after 1970 that gives an Invalid Date, and `toISOString` at line 142 throws a RangeError. The error escapes the `map` at line 151 before `setHabits` runs, so in the source that toggle changes nothing. The model has no upper bound on days: it appends the day and returns the far-off due date (`ToggleBeyondDateRange`). `Math.pow(2, n)` itself is exact in floating point for these counts and is modelled as exact.
- `completionCount` is a natural number. A negative count could only come from stored data, which is not part of this model.
- `console.log` (`src/HabitTracker.tsx:39`) and the Enter-key handler (`src/AddHabitForm.tsx:24-28`). The handler only calls `handleAddHabit`.
