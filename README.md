# School weekly task schedule — Dafny model

This project models the logic of a small school web application. Staff use it to record which department has which task in which time slot of which day, and to browse the work week by week. Two parts have logic worth modelling:

- **The schedule document and its handlers** (`schedule.dfy`, module `Schedule`). The document maps a date string to a map from time-slot label to the ordered list of task entries in that slot. `ScheduleStore` is a class whose field `document` holds the stored document. Its methods `AddTask` and `DeleteTask` do what the `add_task` and `delete_task` handlers do. They validate the request fields, change the document in place, and answer with a `Status` that carries the handler's reply message. Each method is proved equal to a specification function on documents, `Append` or `RemoveAt`. Those functions state what changes, what does not, the order of entries, and the pruning of emptied keys. Lemmas prove that both keep the document invariant `WellFormed`: no empty date map, no empty slot list, and every entry's `timeSlot` equal to the slot key it is filed under. A further lemma proves that deleting the entry just added restores the document.
- **The week calculator** (`week.dfy`, module `Week`). A day is a proleptic Gregorian ordinal, the value of Python's `date.toordinal()`. Day 1 is 0001-01-01, a Monday, so the weekday of day `n` is `(n + 6) % 7`. `MondayOf` aligns a day back to the Monday of its week. `GetWeekStart` does the same for an optional date, falling back to today. `WeekDates` is the loop that builds the five weekday columns of a calendar page.

`wrappers.dfy` holds the `Option` type used for request fields that may be absent.

Request fields are `Option<string>`. Python's truth test on a field (`all([...])`) becomes `Present`: the field is given and is not the empty string. `task_index` is an `Option<int>`. The handler tests `is not None`, so an index of 0 counts as given.

## Model

| member | source | states |
|---|---|---|
| `Schedule.Append` | app.py:127-139 | the date and slot keys exist afterwards, created if missing; the slot's list is one longer; its earlier entries are the old ones in the same order; the last entry has exactly the given department, task and slot; every other date and every other slot of the same date is unchanged |
| `Schedule.RemoveAt` | app.py:162-173 | for an entry that exists: the slot's list loses exactly the entry at the index; entries before it keep their positions and later ones move down by one; as a multiset, the old list is the new one plus the removed entry; the slot key is dropped exactly when its list had one entry; the date key is dropped exactly when that slot was its only key and is now gone; other dates and slots are unchanged |
| `Schedule.AppendPreservesWellFormed` | app.py:127-139 | adding to a well-formed document leaves it well formed: no empty date maps, no empty slot lists, every entry filed under its own slot |
| `Schedule.RemoveAtPreservesWellFormed` | app.py:164-173 | deleting from a well-formed document leaves it well formed, because the emptied slot and date keys are pruned |
| `Schedule.RemoveAtUndoesAppend` | app.py:127-173 | in a well-formed document the entry just added sits at the old list length, and deleting it gives back the original document, pruning any date or slot key that the add created |
| `Schedule.ScheduleStore.AddTask` | app.py:115-142 | fails with the "fill in every field" reply and leaves the document unchanged when any of department, date, time slot or task is missing or empty; otherwise replaces the document by `Append` of the old one and replies "task added"; keeps `WellFormed` |
| `Schedule.ScheduleStore.DeleteTask` | app.py:151-178 | fails with "required information missing" and no change when date or time slot is missing or empty or the index is absent; fails with "task not found" and no change when the date or slot key is absent or the index is outside 0 ≤ i < length; otherwise replaces the document by `RemoveAt` of the old one and replies "task deleted"; keeps `WellFormed` |
| `Schedule.ScheduleStore.GetSchedule` | app.py:184-187 | returns the whole stored document, unfiltered |
| `Schedule.ScheduleStore.constructor` | app.py:35-43 | the store starts from the loaded document |
| `Week.Weekday` | app.py:57 | the weekday number of a day is between 0 (Monday) and 6 (Sunday) |
| `Week.MondayOf` | app.py:57-59 | the result is a Monday, and the input day lies in the seven days starting there, so the result is 0 to 6 days before the input |
| `Week.MondayOfUnique` | app.py:57-59 | any Monday at most six days before a day is that day's `MondayOf`, so the alignment is unique |
| `Week.MondayOfSameWeek` | app.py:50-59 | every day of a week aligns to the same Monday; in particular aligning a Monday gives it back (idempotence) |
| `Week.GetWeekStart` | app.py:50-59 | the Monday of the given date, or of today when no date is given; the chosen day lies 0 to 6 days after it, exactly its weekday number |
| `Week.WeekOf` | app.py:69-75 | a week has exactly five columns; column i is the start day plus i, labelled with the i-th weekday name, Monday to Friday |
| `Week.WeekDates` | app.py:68-75 | the loop of the main page builds exactly the five columns of `WeekOf` |
| `Week.WeekLabelsAreTrue` | app.py:92-99 | for a week starting on a Monday, each column's label is its day's real weekday, and each column aligns back to that Monday; so the week page shows the week of the date it was asked for |

## Left out

- Web routing, reading the request body, JSON replies, template rendering and server start-up are framework glue. A handler's reply is the `Status` value with its `Message`.
- File storage is not modelled. Loading the JSON file, saving it after each change, and falling back to an empty document when the file is missing or unreadable are all left out. The store's `document` field stands for the file's content. Each handler changes it as the handler changes the loaded document before saving it.
- The clock is a parameter: `GetWeekStart` takes today's day number. Parsing `YYYY-MM-DD` and formatting the `date` and `display` strings of a week column are library calls and are not modelled. A column therefore carries its day number and weekday label. A date that does not parse is not modelled either; the source raises an uncaught error for it.
- The time of day that `datetime.now()` carries through the week calculation is left out. It never reaches a displayed string.
- Schedule.ScheduleStore.AddTask: request fields are modelled as strings. The source also accepts JSON numbers, lists or objects as field values and uses Python truthiness on them. Those inputs are not modelled. The catch-all reply of `add_task` (a generic failure message) has no `Status` value: with string fields only file I/O could raise there, and file storage is left out.
- Schedule.ScheduleStore.DeleteTask: `date` and `time_slot` are modelled as strings and `task_index` as an integer. A JSON boolean is a Python integer, so `true` and `false` act as indexes 1 and 0 and are covered by the integer index. A float or string index reaches the catch-all failure reply only when both the date and slot keys exist: otherwise the handler answers "task not found" before comparing the index. A string index then raises at the bounds comparison. A float index raises only when it lies within the bounds, at the deletion itself; outside them the answer is again "task not found". These float and string cases are not modelled, so the catch-all reply has no `Status` value.
- Whether a department or time slot belongs to the fixed lists is not checked by the source, and the model does not assume it. The lists themselves only feed the templates.
- Concurrent requests are not modelled. Two writers that overwrite the whole file can lose each other's updates.
