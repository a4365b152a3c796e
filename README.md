# Plant watering reminder: a Dafny model

This project models the core of a small plant-watering reminder, a single
Python script (`scratch.py`). The script keeps a `plants` table in SQLite. Each
row holds a plant's name, its watering interval in days, the day it was last
watered, the day it is next due, and an optional photo path. A text menu
offers four choices: add a plant (`1`), record a watering (`2`), list the
plants with an urgency label (`3`), and exit (`0`).

The model replaces the SQLite table with an in-memory sequence of records in
rowid order. Dates are whole day numbers, and "today" is a parameter of every
operation that reads the date.

- `Schedule`: the next-watering rule (`day + interval`) and the urgency
  labels of the list (overdue, due today, due tomorrow, none).
- `Photo`: how the add flow turns the photo menu choice and what the camera
  or the file dialog returned into an optional path.
- `PlantTable`: the record type, the table invariant (ids positive and
  ascending, every row on schedule), SQLite's rowid choice for a new row,
  and what an INSERT and a watering UPDATE do to the rows. The lemmas about
  adding and watering are here.
- `Store`: the database file as a class `PlantStore` with a `hasTable` flag
  and a `rows` field. `InitDb`, `AddPlant`, `WaterPlant` and `ListPlants`
  are methods proved against the `PlantTable` functions.
- `Menu`: the menu dispatch, a `Session` function giving the table after a
  sequence of menu rounds, lemmas about sessions, and `RunMenu`, the loop of
  `main`, proved against `Session`.

The script checks neither that the name is non-empty nor that the interval
is positive, and `int(...)` raises on non-numeric text. The model therefore
accepts any name and any integer interval, including zero and negative ones
(see `Schedule.LabelOnWateringDay`).

## Model

| member | source | states |
|---|---|---|
| `Schedule.Classify` | scratch.py:100-107 | The label is overdue exactly when the next day is before today, due today exactly when it is today, due tomorrow exactly when it is the day after, and none exactly when it is later. So exactly one label applies. |
| `Schedule.NextWatering` | scratch.py:77 | `today + timedelta(days=interval)` as day numbers, used here and again at line 123. It has no ensures; `PlantTable.InsertAppendsOne`, `PlantTable.WaterKnownId` and `Schedule.LabelOnWateringDay` state what it gives. |
| `Schedule.PressureGrowsWithTime` | scratch.py:100-107 | If the due day stays fixed, the label never becomes less pressing as today moves forward. |
| `Schedule.LabelOnWateringDay` | scratch.py:100-107 | On the day of a watering, the label depends only on the interval: none for 2 or more, tomorrow for 1, today for 0, overdue below 0. |
| `Photo.PickedPath` | scratch.py:59-64 | The picker gives no photo exactly when the dialog returned empty text. Otherwise it gives that text as the path. |
| `Photo.ChosenPhoto` | scratch.py:71-75 | Choice "1" stores the camera's result and "2" the picker's. Any other choice stores no photo. |
| `Photo.PhotoOnlyWhenProduced` | scratch.py:71-75 | A new plant has a photo exactly when the user chose capture and the camera returned a path, or chose pick and the dialog returned a non-empty path. |
| `PlantTable.LargestId` | scratch.py:14 | The result is at least every id in the non-empty table, and some row has it. |
| `PlantTable.FreshId` | scratch.py:14 | The id given to a new row is greater than every existing id, and is 1 in an empty table. |
| `PlantTable.FreshIdFollowsLast` | scratch.py:14 | In a table that keeps the invariant, the new id is the last row's id plus one. |
| `PlantTable.NewPlant` | scratch.py:76-83 | The row `add_plant` inserts. It has no ensures; see `PlantTable.InsertAppendsOne`. |
| `PlantTable.Insert` | scratch.py:80-83 | The table after the INSERT. It has no ensures; see `PlantTable.InsertAppendsOne`, `PlantTable.InsertKeepsInvariant` and `Store.PlantStore.AddPlant`. |
| `PlantTable.SelectInterval` | scratch.py:117-118 | The lookup finds nothing exactly when no row has the id. When it finds a value, that value is the interval of a row with the id. |
| `PlantTable.UpdateDates` | scratch.py:124-128 | The table after the UPDATE. It has no ensures; see `PlantTable.UpdateDatesAt`. |
| `PlantTable.Water` | scratch.py:117-128 | The table after `water_plant`. It has no ensures; see `PlantTable.WaterKnownId`, `PlantTable.WaterUnknownId`, `PlantTable.WaterKeepsInvariant`, `PlantTable.WaterForgetsEarlierWatering` and `Store.PlantStore.WaterPlant`. |
| `PlantTable.UpdateDatesAt` | scratch.py:124-128 | The UPDATE keeps the length. It sets only the two dates of the rows with the id, and leaves every other row and field as it was. |
| `PlantTable.InsertAppendsOne` | scratch.py:76-83 | Adding appends exactly one row and keeps the earlier rows. The new row's id differs from every other id. It was last watered today and is due one interval later. Its name, interval and photo are the ones given. |
| `PlantTable.InsertKeepsInvariant` | scratch.py:76-83 | Adding keeps ids positive, ascending and unique, and keeps every row on schedule. |
| `PlantTable.WaterUnknownId` | scratch.py:117-120 | Watering an id that no row has finds nothing and leaves the table unchanged. |
| `PlantTable.WaterKnownId` | scratch.py:117-128 | Watering row j sets its last watering to today and its next watering to today plus its own stored interval, whatever the old dates were. Its name, interval and photo, and every other row, stay unchanged. |
| `PlantTable.WaterKeepsInvariant` | scratch.py:122-128 | Watering keeps the table invariant. |
| `PlantTable.WaterForgetsEarlierWatering` | scratch.py:122-128 | Watering on day t1 and then on day t2 gives the same table as watering on t2 alone. The new schedule never chains off the old date. |
| `Store.PlantStore.constructor` | scratch.py:7-10 | A new database file has no table and no rows. |
| `Store.PlantStore.InitDb` | scratch.py:9-23 | Afterwards the table exists and the rows are unchanged. If the table already existed, nothing changes, so a second call has no effect. |
| `Store.PlantStore.AddPlant` | scratch.py:66-86 | The returned id is the fresh id and no earlier row has it. The table becomes the old table plus the new row, with the photo taken from the photo choice. The invariant holds afterwards. |
| `Store.PlantStore.ListPlants` | scratch.py:88-109 | The listing has one entry per row, in table order. Each entry is the row with its urgency label for today. The table is only read. |
| `Store.PlantStore.WaterPlant` | scratch.py:111-131 | The result reports "found" exactly when a row has the id. If not found, the table is unchanged. Otherwise the table is the watering update of the old one, and the invariant holds afterwards. |
| `Menu.Dispatch` | scratch.py:141-152 | "1", "2", "3" and "0" select add, water, list and exit. Any other answer, and only such an answer, re-prompts. |
| `Menu.Step` | scratch.py:141-152 | The table after one round that does not exit. It has no ensures; see `Menu.ReadOnlyRoundsKeepTable`, `Menu.StepKeepsInvariant` and `Menu.StepKeepsRecords`. |
| `Menu.Session` | scratch.py:135-152 | The table and exit flag after the menu loop. It has no ensures; see `Menu.ExitStopsSession`, `Menu.ReadOnlySessionKeepsTable`, `Menu.SessionKeepsInvariantAndRecords` and `Menu.RunMenu`. |
| `Menu.ReadOnlyRoundsKeepTable` | scratch.py:146-152 | A round whose answer is neither "1" nor "2" leaves the table unchanged. |
| `Menu.ExitStopsSession` | scratch.py:148-150 | "0" ends the session with the table unchanged, and no later answer is read. |
| `Menu.ReadOnlySessionKeepsTable` | scratch.py:135-152 | A session in which no answer is "1" or "2" ends with the table it started with. |
| `Menu.StepKeepsInvariant` | scratch.py:142-145 | Each round keeps the table invariant. |
| `Menu.StepKeepsRecords` | scratch.py:142-145 | No round removes a row or changes a row's id, name, interval or photo. |
| `Menu.SessionKeepsInvariantAndRecords` | scratch.py:133-152 | A whole session keeps the invariant. Every row present at the start is still there, in place, with the same id, name, interval and photo. |
| `Menu.AddThenWaterScenario` | scratch.py:66-131 | "Fern" added on day d with interval 7 and no photo is stored as watered on d and due on d + 7. After watering on d + 10, it was last watered on d + 10 and is due on d + 17. |
| `Menu.RunMenu` | scratch.py:133-152 | After creating the table, the loop ends with exactly the table and exit flag that `Session` gives for the same answers. |

## Left out

- The camera capture (`take_photo`): it uses a device and polls the keyboard. Its result is an input to the add flow (`captured`), a path or none.
- The file dialog (`choose_photo`): it is a foreign UI call. The text it returns is an input (`dialogResult`). Only its empty-means-none test is modelled.
- The photo file name built from the plant name and the clock with `strftime`: it depends on the clock and on library formatting.
- SQLite connections, commits and closes: the table is in memory. A storage failure is not modelled.
- Console input and output and the message texts: the answers come in as `Entry` values, and the listing is returned instead of printed.
- The clock (`date.today()`): every operation takes `today` as a day number.
- Dates as calendar values: the model uses unbounded day numbers. Python's `OverflowError` for a date outside years 1 to 9999, or for an interval beyond the range `timedelta` accepts, is not modelled, and neither is the ISO text storage and `strptime` parsing of dates.
- `int(...)` parsing of the interval: the model takes the interval as an integer. Text that is not a number makes the script raise, which is not modelled.
- The watering id: the script passes the typed text straight to SQLite, where text that is not a number matches no row. The model takes the id as an integer.
- Running out of input: Python raises `EOFError` at the prompt. `Session` instead ends with `exited` false when the answers run out.
- SQLite's fallback when the largest rowid is already the maximum 64-bit value: SQLite then picks a random unused rowid. `FreshId` always gives the largest id plus one.
- Row order of the unordered `SELECT` in the listing: it is taken to be rowid order, which is the order SQLite scans this table in.
