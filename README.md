# Calendar list picker: grid builder and selection controller

This project models the logic of a React Native calendar list date picker
in Dafny. Two parts are modelled.

- **The grid builder** (`genCalendarData` in `src/helper/HelperCalendar.tsx`).
  - It resolves the visible window and the available window.
  - It walks every day of the visible window and files each day's cell under its
    month's `"<year>-<month>"` identifier. A month's first entry starts with the
    month's leading blanks.
  - It pads every month to whole weeks.
  - It emits, per month, a titled month cell, six untitled ones, the seven weekday
    titles and the month's entry.
- **The selection controller** (`src/CalendarList.tsx`).
  - It holds the chosen start and end days and the stored run of selected day keys
    (`arrDateInRange`).
  - It holds the registry of mounted day cells (`objRefDate`).
  - Taps, `chooseRangeDate` and `chooseAvailableDate` change the selection and
    restyle the registered cells.

Modules:

- `Dates` (`dates.dfy`) stands in for the JavaScript `Date` values:
  - a date is a valid Gregorian year/month/day;
  - `Ordinal` numbers days consecutively and gives every comparison;
  - `NextDay`/`AddDays` are `addDate`;
  - `Weekday` is `getDay`.
- `Text` (`text.dfy`) holds:
  - the decimal rendering of numbers;
  - `split('-')` and `parseInt`;
  - the month identifier, and the proof that it splits back into its year and month.
- `MonthRuns` (`month_runs.dfy`) holds:
  - the day walk;
  - its cut into maximal runs of one month, which are consecutive days with months
    that strictly increase.
- `HelperCalendar` (`helper_calendar.dfy`) holds:
  - the cell datatypes;
  - the status rule, `getDateInRange` and window resolution;
  - the three imperative passes of `genCalendarData` (walk, padding, emission), each
    a method with loop invariants proved against the specification function `Grid`.
- `GridProperties` (`grid_properties.dfy`) states what the grid looks like:
  - every day of the window once and in order;
  - month blocks in chronological order;
  - whole rows of seven;
  - headers;
  - each day under the title of its own weekday;
  - the fields of each day cell.
- `CalendarList` (`calendar_list.dfy`) holds:
  - the cell handle (`DayContent`: its day, and a mutable status and availability);
  - the list as a class with the selection, the stored run, the registry (a map,
    plus the order its keys were filed in, which is the order `Object.keys` lists
    them) and a ghost log of the selections reported to `onSelectionDate`;
  - the tap state machine as the functions `Recalculated`/`Tap` with lemmas;
  - the redraw, proved to mark the registered cells exactly as the grid's status
    rule does whenever the selection is ordered.

Day keys (`toLocaleDateString()` strings in the source) are modelled by day
ordinals. The current day (`new Date()`) is a parameter. `onSelectionDate` is
modelled by the ghost log `selections`. The tap gate of a day cell (a cell only
dispatches `onPressDay` while it is available) is a precondition of `OnPressDay`.

The normalisation of the selection (an end without a start becomes the start)
sits in the component's body, so it runs on every render and not only on the
first. `Rerender` models a later render: it normalises the selection again and
leaves the stored run, the cells and the log alone. A host that re-renders the
list after each report therefore turns `chooseRangeDate(undefined, e)` into the
selection of `e` alone before the next tap. Without a render in between, a tap
after `e` inverts the selection (`TapWithoutStart`).

A selection whose end is before its start arises from the props, from
`chooseRangeDate`, or from that tap. For such a selection the grid marks its two
ends as begin and end, while `getDateInRange` returns an empty run, which the
redraw never clears (`InvertedSelection`). The agreement between the cells and the
grid's status rule is therefore stated for ordered selections.

## Model

| member | source | states |
|---|---|---|
| `Dates.DaysInMonth` | src/helper/HelperCalendar.tsx:34-47 | A month has 28 to 31 days. It has 31 exactly for January, March, May, July, August, October and December, and 30 exactly for April, June, September and November. February has 29 days in leap years and 28 otherwise. |
| `Dates.DaysBeforeYearClosed` | src/helper/HelperCalendar.tsx:23-32 | The days before year `y` are `365(y-1)` plus one per leap year: every fourth year, except centuries not divisible by 400. |
| `Dates.Ordinal` | src/helper/HelperCalendar.tsx:72-82 | A day's key. Distinct days have distinct keys (`Dates.OrdinalInjective`), and the next day's key is one higher (`Dates.NextDayOrdinal`). |
| `Dates.AddDays` | src/helper/HelperCalendar.tsx:19-21 | `addDate(d, n)`. Its key is `n` higher (`Dates.AddDaysOrdinal`), and its weekday is `n` on, modulo 7 (`Dates.WeekdayAddDays`). |
| `Dates.NextDay` | src/helper/HelperCalendar.tsx:19-21 | `addDate(d, 1)` stays in the month of `d` or moves to the next month, and it moves exactly when it lands on day 1. |
| `Dates.NextDayOrdinal` | src/helper/HelperCalendar.tsx:19-21 | The next day is numbered one higher. |
| `Dates.AddDaysOrdinal` | src/helper/HelperCalendar.tsx:19-21 | `addDate(d, n)` is numbered `n` higher than `d`. |
| `Dates.OrdinalInjective` | src/helper/HelperCalendar.tsx:23-32 | Two whole days with equal times (`getTime`) are the same date. |
| `Dates.Weekday` | src/helper/HelperCalendar.tsx:228 | `getDay` lies in 0..6. `HelperCalendar.WeekdayAnchors` pins it to the calendar. |
| `Dates.WeekdayAddDays` | src/helper/HelperCalendar.tsx:171-235 | `n` days later the weekday has advanced by `n` modulo 7. |
| `Dates.FirstDayOfMonth` | src/helper/HelperCalendar.tsx:148 | `setDate(1)` gives day 1 of the same month, `day - 1` days earlier. |
| `Dates.LastDateOfMonth` | src/helper/HelperCalendar.tsx:34-47 | `getLastDateOfMonth(y, m)` is in month `m + 1` of year `y`, and the day after it is the first of the following month. |
| `Dates.LastDateOfNextMonth` | src/helper/HelperCalendar.tsx:49-56 | `getLastDateOfNextMonth` is the last day of the month `maxMonths - 1` months after today's month, with the year carried. |
| `Text.NatToString` | src/helper/HelperCalendar.tsx:175 | A rendered number is a non-empty string of digits. |
| `Text.ParseNatToString` | src/helper/HelperCalendar.tsx:251-255 | `parseInt` of a rendered number gives the number back. |
| `Text.ParseDigits` | src/helper/HelperCalendar.tsx:254 | `parseInt(s, 10)` on digits. It inverts the rendering (`Text.ParseNatToString`). |
| `Text.Split` | src/helper/HelperCalendar.tsx:251 | `split('-')` gives at least one piece. Its pieces are fixed by `Text.SplitNoSeparator` and `Text.SplitAtFirst`. |
| `Text.SplitNoSeparator` | src/helper/HelperCalendar.tsx:251 | A string without `-` splits into itself alone. |
| `Text.SplitAtFirst` | src/helper/HelperCalendar.tsx:251 | Splitting `a-b`, where `a` has no `-`, gives `a` followed by the pieces of `b`. |
| `Text.DigitsHaveNoDash` | src/helper/HelperCalendar.tsx:175 | A rendered number holds no `-`. |
| `Text.MonthKey` | src/helper/HelperCalendar.tsx:175 | The `"<year>-<month>"` identifier. It splits back into its year and month (`Text.MonthKeyRoundTrip`) and tells months apart (`Text.MonthKeyInjective`). |
| `Text.MonthKeyRoundTrip` | src/helper/HelperCalendar.tsx:251-255 | A month identifier splits into exactly two pieces, the rendered year and the rendered month, and the month piece parses back to the month. |
| `Text.MonthKeyInjective` | src/helper/HelperCalendar.tsx:175-185 | Two months share an identifier only when they are the same month. |
| `MonthRuns.Walk` | src/helper/HelperCalendar.tsx:171-236 | The walk of `n` days has `n` days. |
| `MonthRuns.WalkAt` | src/helper/HelperCalendar.tsx:171-236 | The `i`-th day walked is `addDate(start, i)`. |
| `MonthRuns.Groups` | src/helper/HelperCalendar.tsx:169-236 | Grouping days by month gives no run exactly for no days, and the last run ends with the last day. |
| `MonthRuns.GroupsFlatten` | src/helper/HelperCalendar.tsx:169-236 | Putting the month runs back together gives the days, in order. |
| `MonthRuns.GroupsAreMonthRuns` | src/helper/HelperCalendar.tsx:169-236 | Each run holds days of one month, and neighbouring runs hold different months. |
| `MonthRuns.WalkGroupsConsecutive` | src/helper/HelperCalendar.tsx:171-236 | Each run of the walk holds consecutive days. |
| `MonthRuns.WalkGroupsIncreasing` | src/helper/HelperCalendar.tsx:171-236 | The months of the walk's runs strictly increase, so a month is never met twice. |
| `HelperCalendar.DayTitleColor` | src/helper/HelperCalendar.tsx:58-67 | The colour is red exactly for Sunday and green exactly for Saturday. |
| `HelperCalendar.WeekdayAnchors` | src/helper/HelperCalendar.tsx:5-13 | `getDay` numbers days as `DayOfWeek` does: 0001-01-01 is a Monday, 2000-02-29 a Tuesday, and 2022-01-01 to 2022-01-07 run from Saturday to Friday. |
| `HelperCalendar.StatusOf` | src/helper/HelperCalendar.tsx:187-222 | The status table. No selection gives NONE. A lone end, or equal ends, gives SINGLE_CHOSEN on that day only. Different ends give BEGIN at the start, END at the end, MIDDLE strictly between, and NONE elsewhere. |
| `HelperCalendar.Interval` | src/helper/HelperCalendar.tsx:72-77 | The `i`-th collected key is `start + i`. |
| `HelperCalendar.IntervalMembers` | src/helper/HelperCalendar.tsx:72-77 | A key is collected exactly when it lies between the two ends. |
| `HelperCalendar.RangeKeys` | src/helper/HelperCalendar.tsx:69-85 | With both ends, the keys are every day from start to end inclusive, in increasing order, and none if the start is after the end. With one end they are that end's key alone, and with none they are `undefined`. |
| `HelperCalendar.GetDateInRange` | src/helper/HelperCalendar.tsx:69-85 | The `for` loop collects exactly `RangeKeys`. |
| `HelperCalendar.ResolveWindows` | src/helper/HelperCalendar.tsx:139-160 | A given full range is used as it is. Otherwise the start is day 1 of today's month. The end is then the last day of the available window's end month, or else the last day `maxMonths - 1` months on. A missing available window is today to that same last day. |
| `HelperCalendar.DayPropsOf` | src/helper/HelperCalendar.tsx:224-231 | A day cell's fields. `GridProperties.DayCellFields` states each of them. |
| `HelperCalendar.DayItems` | src/helper/HelperCalendar.tsx:224-232 | One day cell per day. |
| `HelperCalendar.DayItemsAt` | src/helper/HelperCalendar.tsx:224-232 | The `k`-th day cell carries the fields of the `k`-th day. |
| `HelperCalendar.Lead` | src/helper/HelperCalendar.tsx:179-185 | The leading blank count `(getDay + (7 - sdow % 7) % 7) % 7` lies in 0..6 and is `(weekday - startDayOfWeek) mod 7`. |
| `HelperCalendar.Trail` | src/helper/HelperCalendar.tsx:239-242 | The trailing blank count lies in 0..6 and completes the length to a multiple of 7. |
| `HelperCalendar.Pad` | src/helper/HelperCalendar.tsx:239-242 | Padding keeps the entry as a prefix, adds only blanks, at most six, and makes the length a multiple of 7. |
| `HelperCalendar.WeekdayTitle` | src/helper/HelperCalendar.tsx:265-274 | A weekday title carries that weekday's name, in red exactly for Sunday and in green exactly for Saturday. |
| `HelperCalendar.WeekHeader` | src/helper/HelperCalendar.tsx:265-334 | The weekday row has seven cells. |
| `HelperCalendar.Headers` | src/helper/HelperCalendar.tsx:257-334 | A block's header has fourteen cells. |
| `HelperCalendar.Block` | src/helper/HelperCalendar.tsx:250-337 | A month block fills whole rows of seven. |
| `HelperCalendar.Blocks` | src/helper/HelperCalendar.tsx:250-337 | One block per month run, in order. `GridProperties.DayDatesOfBlocks`, `GridProperties.BlocksWholeWeeks` and `GridProperties.BlocksDayAt` state its contents. |
| `HelperCalendar.Grid` | src/helper/HelperCalendar.tsx:169-337 | The grid of a setup. `GridProperties.GridDays`, `GridProperties.GridMonthRuns` and `GridProperties.GridWholeWeeks` state what it holds. |
| `HelperCalendar.WindowRuns` | src/helper/HelperCalendar.tsx:169-236 | The runs of the window are non-empty. |
| `HelperCalendar.WalkKeysDistinct` | src/helper/HelperCalendar.tsx:175-185 | The identifiers of the walk's months are distinct. |
| `HelperCalendar.WalkKeySameMonth` | src/helper/HelperCalendar.tsx:175-185 | A day of the last run's month finds that run's entry. |
| `HelperCalendar.WalkKeyFresh` | src/helper/HelperCalendar.tsx:179-185 | A day of a new month finds no entry, so the entry is created with its leading blanks. |
| `HelperCalendar.HoldsAppendLast` | src/helper/HelperCalendar.tsx:232 | Pushing onto the last month's entry changes only that entry. |
| `HelperCalendar.HoldsAddNew` | src/helper/HelperCalendar.tsx:179-185 | Creating the entry of a new identifier adds it last in key order. |
| `HelperCalendar.CollectIntoLast` | src/helper/HelperCalendar.tsx:232 | The dictionary keeps holding each run's blanks and cells when the last run grows. |
| `HelperCalendar.CollectNewRun` | src/helper/HelperCalendar.tsx:179-185 | The dictionary keeps holding each run's blanks and cells when a run opens. |
| `HelperCalendar.WalkStep` | src/helper/HelperCalendar.tsx:173-236 | Recording the next day extends the dictionary of the first `n` days' runs to that of the first `n + 1`. |
| `HelperCalendar.RecordDay` | src/helper/HelperCalendar.tsx:175-232 | The loop body creates the month's entry with its blanks when the month is new, then appends the day's cell. |
| `HelperCalendar.CollectDays` | src/helper/HelperCalendar.tsx:169-236 | After the `while` loop the dictionary holds, under each month's identifier and in first-seen order, that month's leading blanks and day cells. |
| `HelperCalendar.PadStep` | src/helper/HelperCalendar.tsx:239-242 | Padding the entry of one key advances the padding pass by one key. |
| `HelperCalendar.PadMonths` | src/helper/HelperCalendar.tsx:239-242 | After the `forEach`, every entry is padded and the key order is unchanged. |
| `HelperCalendar.KeyTitle` | src/helper/HelperCalendar.tsx:251-255 | The month title read back from an identifier. On a month's identifier it is that month's title (`HelperCalendar.KeyTitleOfMonthKey`). |
| `HelperCalendar.KeyTitleOfMonthKey` | src/helper/HelperCalendar.tsx:251-255 | The title read back from a month identifier is `"<month name>-<year>"`. |
| `HelperCalendar.HeadersFromKey` | src/helper/HelperCalendar.tsx:250-334 | The header cells emitted from a month's identifier are that month's headers. |
| `HelperCalendar.EmitStep` | src/helper/HelperCalendar.tsx:250-337 | The cells emitted for one key are that month's block. |
| `HelperCalendar.EmitMonths` | src/helper/HelperCalendar.tsx:250-337 | The emission `forEach` produces the blocks of all months, in key order. |
| `HelperCalendar.GenCalendarData` | src/helper/HelperCalendar.tsx:122-340 | `genCalendarData` returns the grid of the resolved windows. |
| `HelperCalendar.DefaultArguments` | src/helper/HelperCalendar.tsx:122-160 | The default arguments meet `genCalendarData`'s requirements for every today. Without windows, the visible window runs from the first of today's month to the last day two months on, and the available window runs from today to that day. |
| `GridProperties.StatusMarksSelection` | src/helper/HelperCalendar.tsx:187-222 | For an ordered selection, a day is marked exactly when the selection covers it. |
| `GridProperties.DayCellFields` | src/helper/HelperCalendar.tsx:224-231 | A day cell carries its date. It is available exactly within the available window and today exactly on today. It is red exactly on Sundays and green exactly on Saturdays, and its status follows the status table. |
| `GridProperties.DayDates` | src/helper/HelperCalendar.tsx:232 | Reading the day cells' dates yields at most one date per cell. |
| `GridProperties.DayDatesOfDayItems` | src/helper/HelperCalendar.tsx:224-232 | The day cells of a run give back the run. |
| `GridProperties.DayDatesOfHeaders` | src/helper/HelperCalendar.tsx:257-334 | Header cells hold no day. |
| `GridProperties.DayDatesOfBlock` | src/helper/HelperCalendar.tsx:250-337 | A month block holds the days of its month, in order, and no other day. |
| `GridProperties.DayDatesOfBlocks` | src/helper/HelperCalendar.tsx:250-337 | The blocks hold the days of all runs, in order. |
| `GridProperties.WalkCovers` | src/helper/HelperCalendar.tsx:171-236 | The walk meets exactly the days from its start on, `n` of them. |
| `GridProperties.GridDays` | src/helper/HelperCalendar.tsx:169-337 | Every day of `[startDate, endDate]` has exactly one day cell, no other day has one, and the day cells come in increasing date order. |
| `GridProperties.GridMonthRuns` | src/helper/HelperCalendar.tsx:169-337 | The grid is one block per month run. Runs are single months of consecutive days, in chronological order, and together they are the walk. |
| `GridProperties.BlocksWholeWeeks` | src/helper/HelperCalendar.tsx:239-337 | Any sequence of blocks fills whole rows of seven. |
| `GridProperties.GridWholeWeeks` | src/helper/HelperCalendar.tsx:239-337 | The whole grid's length is a multiple of 7. |
| `GridProperties.BlockHeaders` | src/helper/HelperCalendar.tsx:250-334 | A block starts with the month cell titled `"<name of month>-<year>"`, then six untitled month cells. The `i`-th weekday title is that of day `(startDayOfWeek + i) % 7`. |
| `GridProperties.WeekdayInRun` | src/helper/HelperCalendar.tsx:228-235 | In a run of consecutive days the weekday advances by one per day. |
| `GridProperties.ColumnOfDay` | src/helper/HelperCalendar.tsx:179-185 | After the header rows and the leading blanks, the `k`-th day of a month falls in the column of its own weekday. |
| `GridProperties.BlockParts` | src/helper/HelperCalendar.tsx:179-336 | A block is its headers, the leading blanks, the day cells and the trailing blanks. |
| `GridProperties.BlockLeadBlanks` | src/helper/HelperCalendar.tsx:179-185 | The header rows are followed by the leading blanks. |
| `GridProperties.BlockDayAt` | src/helper/HelperCalendar.tsx:224-336 | The `k`-th day of a month sits `14 + lead + k` cells into its block. |
| `GridProperties.BlockTrailBlanks` | src/helper/HelperCalendar.tsx:239-242 | Only blanks follow a month's last day in its block. |
| `GridProperties.BlockColumnTitle` | src/helper/HelperCalendar.tsx:179-334 | The weekday title at the top of a day's column names that day's weekday. |
| `GridProperties.HeaderColumn` | src/helper/HelperCalendar.tsx:265-334 | The weekday title in column `x` is that of day `(startDayOfWeek + x) % 7`. |
| `GridProperties.BlocksPrefix` | src/helper/HelperCalendar.tsx:250-337 | The blocks of the first months are a prefix of the grid. |
| `GridProperties.BlocksDayAt` | src/helper/HelperCalendar.tsx:250-337 | Every block starts at column 0, and the `k`-th day of a month sits at its offset within its block. |
| `CalendarList.DayContent.constructor` | src/components/DayContent.tsx:66-68 | A mounted cell starts with the date, status and availability the grid gave it. |
| `CalendarList.DayContent.ChangeStatus` | src/components/DayContent.tsx:157-159 | `changeStatus` sets the status and leaves the availability. |
| `CalendarList.DayContent.ChangeAvailable` | src/components/DayContent.tsx:161-163 | `changeAvailable` sets the availability and leaves the status. |
| `CalendarList.Normalised` | src/CalendarList.tsx:130-136 | After normalisation an end is present only with a start, and a selection stays present exactly when one was given. A given start keeps the pair unchanged. Without a start, the end becomes the start and there is no end. |
| `CalendarList.NormalisedKeepsStatus` | src/CalendarList.tsx:130-136 | Normalising changes neither the grid's status of any day nor the run. |
| `CalendarList.Recalculated` | src/CalendarList.tsx:246-270 | `recalculateStartEndDates`' four branches. `CalendarList.TapRestartsRange`, `CalendarList.TapClosesRange` and `CalendarList.TapWithoutStart` state them. |
| `CalendarList.Tap` | src/CalendarList.tsx:274-281 | The selection after a tap in either mode. `CalendarList.SingleTap`, `CalendarList.TapKeepsWellFormed` and `CalendarList.TwoTaps` state it. |
| `CalendarList.SingleTap` | src/CalendarList.tsx:274-281 | In single mode a tap selects exactly the tapped day, whatever was selected. |
| `CalendarList.TapRestartsRange` | src/CalendarList.tsx:246-252 | In multiple mode a tap on a complete range restarts it at the tapped day, with no end. |
| `CalendarList.TapClosesRange` | src/CalendarList.tsx:253-262 | In multiple mode, with only a start, a tap gives the range from the earlier to the later of the start and the tapped day. A tap on the start gives that one day. |
| `CalendarList.TapWithoutStart` | src/CalendarList.tsx:263-269 | In multiple mode, with no start, a tap sets the start and keeps the end, which inverts the selection when the tap is after that end. |
| `CalendarList.TapKeepsWellFormed` | src/CalendarList.tsx:246-281 | From a selection whose end is present only with a start and is not before it, every tap keeps that property, and the result covers the tapped day. |
| `CalendarList.TwoTaps` | src/CalendarList.tsx:246-270 | Two taps in multiple mode from no selection select exactly the days between them. |
| `CalendarList.MarkOf` | src/CalendarList.tsx:179-196 | The redraw marks every day of the run. It gives SINGLE exactly to a run of one day. In a longer run it gives BEGIN exactly to the first day, END to the last and MIDDLE to the others. |
| `CalendarList.RunMarksMatchStatus` | src/CalendarList.tsx:179-196 | For an ordered selection, the redraw's mark of each run day is the grid's status, and the grid marks no day outside the run. |
| `CalendarList.InvertedSelection` | src/CalendarList.tsx:179-196 | For a selection whose end is before its start, the run is empty, while the grid marks the start BEGIN and the end END. |
| `CalendarList.RangeKeysDistinct` | src/helper/HelperCalendar.tsx:69-85 | A run holds no day twice. |
| `CalendarList.Redrawn` | src/CalendarList.tsx:163-196 | A cell's status after the redraw. `CalendarList.RedrawnMatchesGrid` states it for ordered selections. |
| `CalendarList.RedrawnMatchesGrid` | src/CalendarList.tsx:163-201 | After the redraw for an ordered selection, a cell that was unmarked, or whose day the old run held, shows the grid's status. |
| `CalendarList.MountedCellFitsSelection` | src/CalendarList.tsx:130-153 | A cell mounted from the grid shows the status of the normalised selection. When that selection is ordered, the cell is marked only if the stored run holds its day. |
| `CalendarList.AvailableMatchesGrid` | src/CalendarList.tsx:220-237 | With both ends given, `chooseAvailableDate` makes a day available exactly when the grid would for that available window. |
| `CalendarList.CalendarList.constructor` | src/CalendarList.tsx:115-153 | Mounting the list builds the grid from the props as given and normalises the selection. It stores the selection's run, registers no cell yet and reports the selection once. |
| `CalendarList.CalendarList.Rerender` | src/CalendarList.tsx:133-136 | A later render normalises the selection again and changes nothing else. It keeps the stored run and the registry coherent with the grid, and an ordered selection becomes well-formed. |
| `CalendarList.CalendarList.InitArrRefDate` | src/CalendarList.tsx:285-289 | A mounted cell is filed under its day's key, replacing any cell there, and a new key joins the key order last. Filing a cell whose status fits keeps the registry clear outside the run, and keeps it coherent with the grid. |
| `CalendarList.CalendarList.RecalculateStartEndDates` | src/CalendarList.tsx:246-270 | The new selection is `Recalculated`: see the `Tap…` lemmas. Nothing else changes. |
| `CalendarList.CalendarList.ClearStoredRun` | src/CalendarList.tsx:164-171 | Every registered cell of the stored run becomes NONE. Other cells and all availabilities are unchanged. |
| `CalendarList.CalendarList.MarkStoredRun` | src/CalendarList.tsx:178-196 | Every registered cell of the run gets its mark. Other cells and all availabilities are unchanged. |
| `CalendarList.CalendarList.DrawArrDayInRange` | src/CalendarList.tsx:163-201 | The stored run becomes the selection's run. Cells of the new run get their mark, cells only in the old run become NONE, and every other cell keeps its status. The selection is reported once. No registered cell is left marked outside the run. For an ordered selection every registered cell shows the grid's status. |
| `CalendarList.CalendarList.OnPressDay` | src/CalendarList.tsx:274-283 | A tap gives the selection `Tap(modePress, …)` and redraws. From a well-formed selection it stays well-formed, covers the tapped day, and leaves every registered cell showing the grid's status. |
| `CalendarList.CalendarList.ChooseRangeDate` | src/CalendarList.tsx:206-218 | The given selection is stored as it is, without normalising, and redrawn. For an ordered one, every registered cell then shows the grid's status. |
| `CalendarList.CalendarList.ChooseAvailableDate` | src/CalendarList.tsx:220-237 | With a window given, each registered cell becomes available exactly when the window's run holds its day. With neither end given nothing changes. Statuses, the selection and the run are untouched. |

## Left out

- JavaScript `Date` semantics are not modelled: time zones, daylight-saving drift of `addDate`'s 24-hour step, UTC parsing in `getDate`, and `toLocaleDateString` formatting. Dates are whole Gregorian days from year 1 on, and day keys are day ordinals.
- `new Date()` for today is a parameter of `GenCalendarData` and of the list's constructor.
- The lunar date of a cell (`convertSolar2Lunar`) is not part of this model. It is a foreign helper that works in floating point and time zones.
- Rendering (`FlatList`, `renderItem`, `getItemLayout`, styles) and React memoisation are left out. The initial `useEffect` report is the first entry of the ghost log.
- The `DayTitle` and `MonthTitle` components are styling only.
- FlatList mounts cells lazily. A cell mounted after the selection changed starts with the status of the props' selection, which the model allows: `InitArrRefDate` keeps coherence only for a cell whose status fits the current selection.
- `Dates.LastDateOfNextMonth`: requires the month count `today.month - 1 + maxMonths - 1` to be non-negative. For a negative count, JavaScript's truncating `%` yields a negative month, which `getLastDateOfMonth` turns into a date string no calendar date matches.
- `HelperCalendar.ResolveWindows`: inherits that precondition when no available window is given.
- `HelperCalendar.GenCalendarData`: month and day name arrays of the wrong length are excluded. The source's tuple types demand 12 and 7 names.
- `HelperCalendar.WeekHeader`: the seven literal `push` calls with `DayOfWeek.Sun` … `DayOfWeek.Sat` are written as one sequence over `i` in 0..6.
- Column alignment of days is proved per block (`GridProperties.BlockColumnTitle`), together with each block starting at a multiple of seven (`GridProperties.BlocksDayAt`). It is not restated as one statement over positions of the whole grid.
- The example app's concrete dates are not restated as a lemma.
