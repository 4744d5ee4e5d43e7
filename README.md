# Habit tracker view logic, modelled in Dafny

This project models the three pieces of logic in the habit tracker's front end:

- **The day checklist** (`HabitsList`). A day holds the habits that are possible on a
  date and the ids of the habits already completed. A checkbox click sends a toggle
  request. When the request succeeds, the list drops the id if it is present and
  appends it if it is absent, and the new count goes to the day cell. Checkboxes are
  disabled once the date's local day has ended. No checkbox exists before the day's
  data is loaded.
- **The new-habit form** (`NewHabitForm`). The form holds a title, a list of weekday
  indices 0..6 that uses the same remove-or-append toggle, and a feedback notice. A
  submission with an empty title or no weekdays does nothing. A successful submission
  clears the draft and shows success. A failed one keeps the draft and shows failure.
  Dismissing the notice removes it.
- **The day cell** (`HabitDay`). The cell computes the completion percentage, rounded
  half up, with 0 when there are no habits. It maps the percentage to one of six colour
  buckets and takes the count that its checklist reports.

The remove-or-append toggle is the same code in both components, so it is defined once
in `ListToggle`. The module also proves that the toggle keeps the order of the other
elements and keeps a list duplicate-free. On a duplicate-free list it changes the
length by one. Toggling twice restores the same elements, and restores the exact list
when the element was absent.

The HTTP requests become outcome parameters: `requestOk` for the PATCH and the POST.
The current time becomes `now`. Timestamps are integer milliseconds, and the local
timezone is a fixed `utcOffset`.

The model follows the code as written in these points:

- The title check is `!title`. Only the empty string is blocked, and a title made of
  blanks is sent.
- A failed toggle request rejects the awaited call before any local update. The
  completed list is therefore unchanged and no count is reported. No update is applied
  and then rolled back.
- The completed ids are a list, not a set. The model keeps the list. It proves that the
  toggle keeps the list duplicate-free and inside the possible habits, provided both
  held before.
- A negative percentage matches none of the six colour conditions. The button then
  keeps only its base classes, and `BucketOf` returns `None`.

## Model

| member | source | states |
|---|---|---|
| ListToggle.Remove | src/components/HabitsList.tsx:39 | the filter drops every occurrence of the id and nothing else: membership is the old membership minus the id, the multiset loses exactly that element's occurrences, and the length falls by their number |
| ListToggle.Toggled | src/components/HabitsList.tsx:36-40 | after the toggle the id is present exactly when it was absent, and every other element keeps its membership. An absent id is appended at the end with the earlier elements unchanged. A present id loses all its occurrences |
| ListToggle.RemoveConcat | src/components/NewHabitForm.tsx:49 | the filter distributes over concatenation, so the remaining elements keep their original order |
| ListToggle.RemoveAbsent | src/components/NewHabitForm.tsx:49 | filtering out a value that is absent leaves the list exactly as it was |
| ListToggle.ToggledNoDup | src/components/NewHabitForm.tsx:47-53 | toggling keeps a duplicate-free list duplicate-free |
| ListToggle.ToggledLength | src/components/HabitsList.tsx:36-40 | on a duplicate-free list, toggling a present element shortens the list by one and toggling an absent one lengthens it by one |
| ListToggle.ToggledWithin | src/components/HabitsList.tsx:52-55 | if the old elements and the toggled id lie in a set, so do the new elements |
| ListToggle.ToggleTwice | src/components/NewHabitForm.tsx:47-53 | two toggles of the same value restore the same elements. They restore the exact list when the value was absent, and the same multiset on a duplicate-free list |
| HabitDay.CompletedPercentage | src/components/HabitDay.tsx:18 | 0 when there are no habits. Otherwise the result is 100·completed/amount rounded to the nearest integer with halves up, stated as 2·amount·p − amount ≤ 200·completed < 2·amount·p + amount |
| HabitDay.PercentageInRange | src/components/HabitDay.tsx:18 | with 0 ≤ completed ≤ amount the percentage lies in 0..100 |
| HabitDay.PercentageMonotone | src/components/HabitDay.tsx:18 | more completed habits never give a lower percentage |
| HabitDay.PercentageEnds | src/components/HabitDay.tsx:18 | with at least one habit, no completion is 0% and full completion is 100% |
| HabitDay.Matches | src/components/HabitDay.tsx:31-36 | every colour condition needs a non-negative percentage. The empty bucket's condition is exactly 0. The k-th of the four middle buckets covers 20(k−1) up to but excluding 20k, and the last starts at 80 |
| HabitDay.BucketOf | src/components/HabitDay.tsx:30-37 | a percentage ≥ 0 satisfies exactly one of the six colour conditions and BucketOf names that one. A negative percentage satisfies none |
| HabitDay.BucketMonotone | src/components/HabitDay.tsx:31-36 | the bucket's intensity never decreases as the percentage grows |
| HabitDay.BucketEdges | src/components/HabitDay.tsx:31-36 | 0 has its own bucket and 1..19 share the first non-empty one. The edges 20, 40, 60 and 80 open their own bucket, each different from the bucket of the value below |
| HabitDay.DayCell.constructor | src/components/HabitDay.tsx:15-16 | a cell starts with the given number of habits and with `completed` set to the default count |
| HabitDay.DayCell.Percentage | src/components/HabitDay.tsx:18 | the cell's percentage is 0 without habits, lies in 0..100 while the count is between 0 and the number of habits, and is 100 when every habit is done |
| HabitDay.DayCell.Colour | src/components/HabitDay.tsx:30-37 | a count between 0 and the number of habits always gets a colour class. No completion gets the empty bucket, and full completion gets the 80-and-above bucket |
| HabitDay.DayCell.HandleCompletedChange | src/components/HabitDay.tsx:22-24 | `completed` becomes exactly the reported count. The percentage and the colour are recomputed from it with `amount` unchanged |
| HabitDay.ClickInPopover | src/components/HabitDay.tsx:49 | a click on a rendered, enabled checkbox whose request succeeds applies AfterToggle to the checklist and reports a count, which becomes the cell's `completed`. A click that is not loaded, out of range, disabled or whose request fails changes neither the checklist nor the cell and reports nothing. A cell whose count matched its checklist still matches, and checklist consistency is kept |
| HabitsList.EndOfDay | src/components/HabitsList.tsx:31 | the result is the last millisecond of the timestamp's local day. It lies on the same day, at most one day later, and the next millisecond begins the following day |
| HabitsList.IsDateInPast | src/components/HabitsList.tsx:31 | `endOf('day')` before `now` holds exactly when the date's local calendar day is earlier than the local day of `now` |
| HabitsList.Checklist.Disabled | src/components/HabitsList.tsx:57 | the checkboxes are disabled exactly when the date's local day is earlier than now's: never at or before the date itself, always from one full day after it |
| HabitsList.Checked | src/components/HabitsList.tsx:58 | a checkbox is checked exactly when some position of the completed list holds its id. In consistent data only a possible habit can be checked |
| HabitsList.AfterToggle | src/components/HabitsList.tsx:36-45 | a successful toggle flips the id's checked state, keeps every other checked state and keeps the possible habits. It keeps consistency when the id is a possible habit. On duplicate-free ids the count changes by −1 or +1 |
| HabitsList.AfterToggleTwice | src/components/HabitsList.tsx:36-45 | two successful toggles of the same id give back the same completed ids and the same possible habits |
| HabitsList.Checklist.constructor | src/components/HabitsList.tsx:24 | the checklist starts with no day data |
| HabitsList.Checklist.Load | src/components/HabitsList.tsx:28 | the day endpoint's response becomes the checklist's data |
| HabitsList.Checklist.HandleToggleHabit | src/components/HabitsList.tsx:33-48 | a failed request changes nothing and reports nothing. A successful one applies AfterToggle and reports the new length of the completed list. The possible habits never change |
| HabitsList.Checklist.ClickCheckbox | src/components/HabitsList.tsx:52-58 | a click toggles only when data is loaded, the index names a rendered checkbox and the date is not in the past. Any report equals the new count, and consistency is kept |
| NewHabitForm.Blocked | src/components/NewHabitForm.tsx:30 | the guard blocks exactly when the title has no characters or no weekday is selected. A non-empty title made only of blanks passes |
| NewHabitForm.ToggleKeepsValid | src/components/NewHabitForm.tsx:110-115 | toggling an index of the seven listed days keeps the selection duplicate-free and within 0..6 |
| NewHabitForm.ValidWeekDaysBound | src/components/NewHabitForm.tsx:12-20 | a valid selection holds at most seven days |
| NewHabitForm.Form.constructor | src/components/NewHabitForm.tsx:23-25 | the form starts with an empty title, no weekdays and no notice |
| NewHabitForm.Form.SetTitle | src/components/NewHabitForm.tsx:99 | the title becomes the input's value, and the weekdays and notice are untouched |
| NewHabitForm.Form.ToggleWeekDay | src/components/NewHabitForm.tsx:47-53 | a selected day loses all its occurrences and an unselected one is appended. Title and notice are unchanged, and a valid selection stays valid |
| NewHabitForm.Form.CreateNewHabit | src/components/NewHabitForm.tsx:27-45 | nothing is sent, exactly when the title is empty or no day is selected, and then nothing changes. Otherwise the current draft is sent. Success clears the title and weekdays and shows success. Failure keeps the draft and shows failure |
| NewHabitForm.Form.DismissFeedback | src/components/NewHabitForm.tsx:74 | the notice is removed, and the title and weekdays are untouched |
| NewHabitForm.Form.ClickWeekDay | src/components/NewHabitForm.tsx:110-115 | checkbox `i` of the seven listed days toggles index `i`. The selection stays valid, and other clicks change nothing |

## Left out

- HabitDay.CompletedPercentage: the result is computed in exact rational arithmetic. The code divides and multiplies in IEEE doubles before rounding, so an exact half can come out a hair on either side of .5. The model does not reproduce that.
- HabitsList.EndOfDay: the local timezone is a fixed offset. Daylight-saving changes, which make some local days 23 or 25 hours long, are not modelled.
- Rendering is not modelled: the JSX, the Radix checkbox and popover, the icons, the clsx class strings and the progress bar. Only the bucket a class string is chosen for is kept.
- The date header texts (`DD/MM` and the weekday name) are not modelled, because they are display formatting only.
- The HTTP client calls are replaced by a success or failure outcome. This applies to the day fetch, the toggle PATCH and the create POST. Response bodies are not consulted, except the day data passed to `Checklist.Load`.
- The on-mount fetch has no error handling in the code. A failed fetch leaves the data absent, which the model covers as "not loaded".
- The localized feedback message strings are not modelled. The feedback type carries the behaviour.
- React scheduling is not modelled: batching of state updates, closures that capture stale state, updates after unmount, and several requests in flight at once. Each handler runs to completion on the state it starts from.
