# Daily to-do list: a verified model

The page keeps one ordered list of tasks per calendar day. A task is a text and a
completed flag. The lists live in the browser's localStorage under a day key of
the form `YYYY-MM-DD`. The user picks a day, adds tasks to its list, toggles or
deletes them, and after every change the list is saved whole and drawn again.

The model follows `script.js` one piece at a time:

- `decimal.dfy` (module `Decimal`): the decimal numerals JavaScript writes for
  `'' + n` and for the year in `join('-')`, with the inverse reading.
- `dates.dfy` (module `Dates`): `formatDate` as `FormatDate` over a `Day` value,
  its inverse `ParseDayKey`, and `getDisplayDate` as `DisplayDate`. Today comes in
  as a parameter.
- `text.dfy` (module `Text`): `String.prototype.trim`, over the ECMAScript
  whitespace and line-terminator characters.
- `store.dfy` (module `Store`): the `Task` record and the storage table
  `map<string, seq<Task>>`. It has `getTasks` and `saveTasks` as specification
  functions, and the toggle and splice edits on a fetched list.
- `render.dfy` (module `Render`): the rows `renderTasks` draws, as a recursive
  definition, and the `forEach` loop that builds them (`RenderRows`).
- `todo_app.dfy` (module `TodoApp`): the page as a class `Planner`. It has a
  `storage` map field and a `selectedDate` option field. Its methods are
  `saveTasks`, `renderTasks`, `initialize`, the date-picker change handler,
  `addTask` and `handleTaskClick`. Every method that re-renders returns the drawn
  `Screen`. A few client methods at the end use only these contracts to check
  the intended uses.

`selectedDate` is `None` until `initialize` runs. After that it is whatever the date
picker holds. The picker holds `""` once it is cleared. The source tests
`!selectedDate`, so both `None` and `Some("")` mean "no day": `getTasks` then yields
`[]` and `saveTasks` writes nothing. `IsActive` states this.

Two edge cases of the code shape the model:

- A malformed stored entry would make `JSON.parse` throw (script.js:50). The
  model's storage holds only well-formed lists, so this path does not arise.
- An out-of-range toggle would throw at script.js:120, so `HandleTaskClick`
  requires the index to be in range. `splice` at or past the end removes nothing
  (script.js:123), and `Spliced` models that.

## Model

| member | source | states |
|---|---|---|
| `Decimal.NatToDec` | script.js:15-16 | the numeral of a month or day is a non-empty digit string with no leading zero (unless it is "0"), shorter than two characters exactly when the value is below 10 |
| `Decimal.IntToDec` | script.js:17-22 | the year's numeral is the unpadded numeral of its magnitude, with a '-' before it exactly when the year is negative |
| `Decimal.NatToDecRoundTrip` | script.js:15-16 | reading a numeral back gives the number it was written from |
| `Decimal.IntToDecRoundTrip` | script.js:17-22 | reading a year's numeral back, sign included, gives the year |
| `Dates.Pad2NatToDec` | script.js:19-20 | `Pad2`, the `length < 2` test, puts '0' before numerals of values 1-9 and, for every value below 100, yields its two decimal digits |
| `Dates.Pad2LongNumeral` | script.js:19-20 | the numeral of any value of 10 or more is left unchanged by the padding |
| `Dates.FormatDate` | script.js:13-23 | a key is the unpadded year, '-', the two-digit month, '-', the two-digit day, and is six characters longer than the year |
| `Dates.FormatDateRoundTrip` | script.js:13-23 | every key reads back as the day it was formatted from, so formatting loses nothing |
| `Dates.FormatDateInjective` | script.js:13-23 | two days have the same key exactly when they are the same day |
| `Dates.DisplayDate` | script.js:26-40 | the heading is "Today" exactly when the key equals today's formatted key; otherwise it is the locale rendering of that key |
| `Dates.DisplayDateTodayIff` | script.js:26-32 | the key of a calendar day is headed "Today" exactly on that day |
| `Text.TrimStart` | script.js:95 | the result is the suffix of the input after a run of whitespace, and it does not start with whitespace |
| `Text.TrimEnd` | script.js:95 | the result is the prefix of the input before a run of whitespace, and it does not end with whitespace |
| `Text.Trim` | script.js:95 | the result is a slice of the input with only whitespace around it, and it has no whitespace at either end |
| `Text.TrimOfTrimmed` | script.js:95 | trim leaves a string with no whitespace at either end unchanged |
| `Text.TrimIdempotent` | script.js:95 | trimming twice gives the same as trimming once |
| `Text.TrimEmptyIff` | script.js:95-100 | the trimmed input is empty, and so rejected, exactly when every character is whitespace |
| `Store.GetTasks` | script.js:46-51 | with no day selected (`IsActive`, the `!selectedDate` test of line 48, is false for None and for ""), or for a key never written, the read is `[]`; otherwise it is the stored list; `TodoApp.Planner.CurrentTasks`, the page's `getTasks()`, is this read on the page's own state |
| `Store.SaveTasks` | script.js:54-57 | with a day selected (`IsActive`, the test of line 55), only that key's entry is replaced by the list and every other entry is kept; with none, nothing changes |
| `Store.ReadAfterSave` | script.js:46-57 | reading the selected day after saving a list yields that list |
| `Store.SaveIsolatesDays` | script.js:46-57 | saving under one day never changes what a different day reads |
| `Store.Toggled` | script.js:118-120 | toggling at i keeps the length and task i's text, flips task i's flag, and keeps every other task |
| `Store.ToggleTwice` | script.js:118-120 | toggling the same task twice restores the list |
| `Store.Spliced` | script.js:121-123 | deleting at a valid i shortens the list by one, keeps the tasks before i and shifts the ones after it down by one; an index at or past the end removes nothing |
| `Store.SplicedMultiset` | script.js:121-123 | a delete removes exactly one occurrence of the deleted task and nothing else |
| `Store.TrimmedIsValid` | script.js:95-103 | the text `addTask` stores is non-empty with no whitespace at either end |
| `Store.ValidTextIsTrimmed` | script.js:95-103 | a text is valid exactly when it is non-empty and trim leaves it unchanged |
| `Store.SavePreservesValid` | script.js:54-57 | saving a valid list keeps every stored list valid |
| `Store.ReadIsValid` | script.js:46-51 | a read from a valid store yields a valid list |
| `Store.AppendValid` | script.js:102-103 | appending a task with a valid text to a valid list keeps it valid |
| `Store.AppendPreservesValid` | script.js:102-104 | appending the trimmed input to the selected day and saving keeps the store valid |
| `Store.EditsPreserveValid` | script.js:118-123 | toggle and delete keep a list valid |
| `Store.EditPreservesValid` | script.js:116-128 | saving a toggled or spliced copy of the selected day's list keeps the store valid |
| `Render.RowsFrom` | script.js:77-90 | one row is drawn per task |
| `Render.RowsFromAt` | script.js:77-90 | row k shows task k with its index counted from the first row, its text and its flag |
| `Render.TaskListShape` | script.js:68-90 | for `TaskList`, the branch of line 68: an empty list draws exactly one notice row; otherwise row k has index k, task k's text and the completed marker exactly when task k is completed |
| `Render.RenderRows` | script.js:77-90 | the loop builds exactly the rows of the list, or the single notice row when the list is empty |
| `TodoApp.Planner.constructor` | script.js:8 | the page starts over the persisted storage with no date selected |
| `TodoApp.Planner.Save` | script.js:54-57 | the new storage is the old one with the selected day's list replaced; nothing is written without a day |
| `TodoApp.Planner.RenderTasks` | script.js:62-91 | the screen equals `TodoApp.Planner.View`, what `renderTasks` draws for the current state; it is headed "Today" exactly when the selected key is today's key; an empty day shows only the notice, and otherwise there is one row per task |
| `TodoApp.Planner.Initialize` | script.js:150-160 | today's key becomes the selected date and the screen drawn is headed "Today" |
| `TodoApp.Planner.SelectDate` | script.js:143-147 | the picker's value, even "", becomes the selected date and that day is drawn |
| `TodoApp.Planner.AddTask` | script.js:94-108 | a blank input is rejected and nothing is stored; otherwise the selected day's list becomes the old list plus one uncompleted task with the trimmed text, only that entry changes, the result is re-rendered, and a valid store stays valid |
| `TodoApp.Planner.HandleTaskClick` | script.js:111-130 | dispatching through `ClickAction` (lines 112-126: the enclosing item, the notice test, the text span, the delete button), a click on a task's text toggles that task and one on its delete button splices it out, in both cases saving and re-rendering; clicks outside items, on the empty notice or on a row's background change nothing and draw nothing |

## Left out

- DOM work is not modelled: looking up the elements, `innerHTML`, `classList`, `createElement` and `addEventListener`. The Enter-key handler is left out too; it calls the same `addTask`. A click is modelled as the list item it fell in and the part of that item it hit.
- `alert` is modelled only as the `Rejected` outcome, with nothing stored.
- Clearing the input field after an add (script.js:106) and setting the date-picker value in `initialize` (script.js:153) are not modelled. They are UI state.
- Task text is interpolated into `innerHTML` unescaped (script.js:85-88). The model keeps the text in the row as plain data and does not model HTML parsing.
- localStorage and JSON are not modelled. Storage is a map from key to task list, and the JSON round trip of `{text, completed}` records is taken as lossless. Entries written by other code, including malformed JSON, are not representable.
- `addTask`'s `push` (script.js:103), the toggle's flag assignment (script.js:120) and `splice` (script.js:123) edit the fetched array in place. The model writes them as sequence updates in `AddTask` and `HandleTaskClick`. The array comes fresh from `JSON.parse` and nothing else refers to it, so no aliasing is lost.
- Only the result of parsing `new Date(...)` is modelled, as a `Day` value. The clock, `toLocaleDateString` and the slash-replacement parsing trick are left out. A heading that is not "Today" is `Localized(key)`, and its text is left abstract.
- TodoApp.Planner.Initialize: `now` stands for every clock read of one handler. The source reads the clock at script.js:152 and again in each `getDisplayDate` call (line 27, reached from lines 65 and 72). Across midnight its heading can then differ from "Today", and the heading and the empty notice can disagree; the model, with one reading, does not capture this. The same holds for TodoApp.Planner.RenderTasks, which uses one heading for both.
- Dates.FormatDate: the layout is stated only for months and days below 100. A `Date` object always gives values in range.
- Strings are sequences of Unicode scalar values, not UTF-16 code units. Length only matters in the model for the digit strings of `formatDate`, where the two agree.
- The `dataset.index` string-to-number conversion is not modelled. A row carries its index as a number.
- TodoApp.Planner.HandleTaskClick: requires a toggle's index to be in range, because the code would throw on a missing element there.
