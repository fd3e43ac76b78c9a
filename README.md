# Health dashboard data layer in Dafny

This project models the data layer of a Next.js/React health dashboard:
- the mock-data generators that make a week of activity, nutrition and water records, the seven fixed workouts and the mock user;
- the health context provider, which fills its state on mount, derives a daily summary and fails fast outside a provider;
- the home page's own copy of that state, its current-date lookups and its calendar section;
- the list shaping inside three dashboard components: the workout list, the activity chart and the stat card.

The calendar section has a month grid, two cursors (the selected day and the displayed month) and per-day lookups.

The modules follow the source files. Five shared modules support them:
- `Types` holds the record shapes.
- `Text` covers `String(n)`, `padStart` and reading digits back.
- `Calendar` is the proleptic Gregorian calendar of ECMAScript `Date`. It uses DayFromYear, MakeDay with month overflow and WeekDay from section 21.4 of ECMA-262, plus the `yyyy-MM-dd` format.
- `Lookup` holds the `filter`, `some` and `find` on a record's date string.
- `Sorting` is a stable sort by an integer key, which is how `Array.prototype.sort` behaves.

Where the code keeps state that it updates step by step, the model uses classes:
- `HealthContext.HealthProvider` and `Page.HomePage` hold the records, the current date and the summary. Their mount and summary effects are methods.
- `Page.CalendarSection` holds the two cursors. Its `GenerateDays` builds the grid with the source's two push loops.

Everything else is a function.

Some inputs are parameters:
- The clock becomes a `today: Date`, or the week's list of date strings.
- Each `Math.random()` call becomes a real draw `u` with `0 <= u < 1`. `Math.floor(u * k) + low` is then `(u * k).Floor + low`.

The summary follows the code, not the comments in `src/types/index.ts`:
- The type comments (lines 84-86) call the progress fields percentages. Both summary effects store plain ratios `value / goal`, so the model does too.
- The summary reads the index-0 activity and water records, not the records found for the current date. `HealthContext.MountedSummaryMatchesLookups` proves that the two agree right after mounting.

## Model

| member | source | states |
|---|---|---|
| MockData.MockUserGoals | src/data/mock-data.ts:164-175 | the mock user is `user-1` and its step, calorie and water goals are 10000, 2200 and 2500, all positive, so the summary divisions are defined |
| MockData.RandomInt | src/data/mock-data.ts:148-150 | `Math.floor(Math.random() * span) + low` lies in `[low, low + span)` for every draw |
| MockData.ActivityFor | src/data/mock-data.ts:144-152 | one activity has steps in 5000..9999, active minutes in 30..89, calories in 200..499 and distance in [2, 5) |
| MockData.GenerateActivities | src/data/mock-data.ts:143-153 | one activity per date in order: record i carries `dates[i]`, the user's id, the id `activity-i` and counts in the drawn ranges |
| MockData.GenerateWaterIntake | src/data/mock-data.ts:155-162 | one reading per date in order: record i carries `dates[i]`, the user's id, the id `water-i` and an intake in 1500..2499 ml |
| MockData.GenerateNutrition | src/data/mock-data.ts:89-141 | one record per date in order: record i carries `dates[i]`, the user's id and the id `nutrition-i`; its four meals are breakfast, lunch, dinner and snack, and its totals equal the meal sums |
| MockData.FixedTotals | src/data/mock-data.ts:94-139 | 350+650+580+200 = 1780 kcal, 20+35+30+10 = 95 g protein, 40+65+60+15 = 180 g carbs, 12+22+18+8 = 60 g fat, and the meals come in breakfast, lunch, dinner, snack order |
| MockData.IdsDistinct | src/data/mock-data.ts:91 | ids built from different indices differ, so the generated ids are distinct |
| MockData.WindowInRange | src/data/mock-data.ts:177-181 | every day of the seven-day lookback is a valid date that the `yyyy-MM-dd` format can render |
| MockData.PastDate | src/data/mock-data.ts:187 | the i-th formatted date reads back as today minus i days |
| MockData.PastWeekDates | src/data/mock-data.ts:184-189 | exactly seven dates; entry 0 is today's rendering and entry i reads back as today minus i days |
| MockData.PastWeekDecreasing | src/data/mock-data.ts:184-189 | the seven dates are distinct and strictly decreasing in day number, across month and year boundaries |
| MockData.MockWorkouts | src/data/mock-data.ts:11-86 | seven fixed workouts, each with the source's literal fields, dated in today's month |
| MockData.TemplateId | src/data/mock-data.ts:16-17 | the k-th fixed workout has id `workout-(k+1)` and belongs to `user-1` |
| MockData.MockWorkoutIds | src/data/mock-data.ts:11-86 | seven workouts with pairwise distinct ids, all for `user-1` |
| MockData.DayLiteral | src/data/mock-data.ts:18 | the `dd` literals 01, 02, 03, 04, 21, 22, 23 are the two-digit renderings of the workout days |
| MockData.MockWorkoutDay | src/data/mock-data.ts:11-18 | each workout date is the unpadded year, the zero-padded two-digit month and the two-digit day, joined by dashes |
| MockData.MockWorkoutDates | src/data/mock-data.ts:11-18 | in a four-digit year each workout date is the `yyyy-MM-dd` rendering of its day in today's month, and it reads back as that day |
| Calendar.DaysInYear | src/app/page.tsx:131 | a year has 365 days, or 366 exactly when it is a Gregorian leap year |
| Calendar.DaysInMonth | src/app/page.tsx:142 | `endOfMonth(...).getDate()` lies in 28..31; February has 29 days exactly in leap years |
| Calendar.WeekDay | src/app/page.tsx:134 | `getDay()` lies in 0..6 |
| Calendar.WeekDayAnchors | src/app/page.tsx:134 | the numbering matches real weekdays: 1970-01-01 is a Thursday (4) and 2023-10-01 a Sunday (0), so 0 is Sunday |
| Calendar.WeekDayOfDay | src/app/page.tsx:134-145 | the weekday of day d is the weekday of the 1st plus d - 1, modulo 7 |
| Calendar.PrevDay | src/data/mock-data.ts:177-181 | going back one day gives a valid date whose day number is one less |
| Calendar.SubDays | src/data/mock-data.ts:177-181 | `subDays(date, n)` is a valid date exactly n days earlier, crossing month and year boundaries |
| Calendar.ShiftMonth | src/app/page.tsx:180 | `new Date(year, month + delta)` with month overflow is a valid month whose index moves by exactly `delta` |
| Calendar.NextMonth | src/app/page.tsx:192 | one month forward wraps December to January of the next year |
| Calendar.PrevMonth | src/app/page.tsx:180 | one month back wraps January to December of the previous year |
| Calendar.ShiftMonthCompose | src/app/page.tsx:180-192 | month moves compose additively, and a move by 0 changes nothing |
| Calendar.FormatDate | src/data/mock-data.ts:187 | `format(d, 'yyyy-MM-dd')` is ten characters with dashes at positions 4 and 7 |
| Calendar.ParseDate | src/components/dashboard/WorkoutList.tsx:30 | a `yyyy-MM-dd` string that reads as a date gives a valid calendar date with a year in 0..9999 |
| Calendar.ParseFormat | src/data/mock-data.ts:187 | formatting a date in years 1..9999 and reading it back gives the same date |
| Calendar.FormatParse | src/data/mock-data.ts:187 | a date string that reads as a date in years 1..9999 is that date's rendering |
| Calendar.FormatInjective | src/app/page.tsx:154-155 | different days render as different strings, so matching on the string matches on the day |
| Calendar.TimeOrder | src/components/dashboard/WorkoutList.tsx:30 | the time values of two dates compare as their day numbers do |
| Text.DigitsRoundTrip | src/data/mock-data.ts:13 | reading back a `padStart(width, '0')` rendering of n gives n |
| Text.DigitsOfValue | src/data/mock-data.ts:13 | a digit string is the padded rendering of its value at its own width |
| Text.DecimalInjective | src/data/mock-data.ts:91 | `String(n)` renders different numbers differently |
| Text.DecimalIsDigits | src/data/mock-data.ts:12 | a number of exactly `width` digits renders the same with or without padding |
| Text.DigitsLength | src/data/mock-data.ts:13 | a number below 10^width renders in exactly `width` characters |
| Lookup.FilterDate | src/app/page.tsx:155 | `filter` on the date keeps exactly the records with that date, each as often as in the input |
| Lookup.FilterConcat | src/app/page.tsx:155 | filtering distributes over concatenation, so the kept records stay in list order |
| Lookup.SomeDate | src/app/page.tsx:163 | `some` on the date holds exactly when some record has that date |
| Lookup.FindDate | src/app/page.tsx:65-67 | `find` on the date returns nothing exactly when no record has the date, and otherwise the first record that has it |
| Lookup.LookupsAgree | src/app/page.tsx:155-171 | `some` holds exactly when `find` returns a record, and exactly when `filter` is non-empty |
| Lookup.FindFirst | src/app/page.tsx:65 | when the first record has the date, `find` returns it |
| Sorting.SortBy | src/components/dashboard/WorkoutList.tsx:29-30 | the sorted copy is ordered by the key and is a permutation of the input |
| Sorting.SortStable | src/components/dashboard/WorkoutList.tsx:30 | records with equal keys keep their input order, as the stable `Array.prototype.sort` does |
| Sorting.WithKeyConcat | src/components/dashboard/WorkoutList.tsx:30 | picking the records with one key distributes over concatenation |
| Sorting.SortedPrefix | src/components/dashboard/WorkoutList.tsx:31 | a prefix of a sorted list is sorted, and every element left out sorts at or after every element kept |
| Summary.Ratio | src/app/page.tsx:56-58 | `value / goal` times the goal is the value, is at least 1 exactly when the goal is reached, and is never clamped |
| Summary.Summarize | src/app/page.tsx:52-62 | a summary exists exactly when both lists are non-empty; its date is the current date, its ratios are those of the index-0 records and its active minutes are copied |
| Summary.SummaryDateOnlyLabels | src/context/HealthContext.tsx:58-68 | the current date only labels the summary: changing it (through `setCurrentDate`) changes the summary's date but keeps the ratios and minutes of the index-0 records |
| Summary.SummaryUnclamped | src/context/HealthContext.tsx:58-68 | each ratio reaches 1 exactly when the value reaches its goal, with no upper clamp |
| HealthContext.GenerateWeek | src/context/HealthContext.tsx:50-55 | the three generators share one date list, so the three lists have its length and record i of each carries `dates[i]` and the mock user's id |
| HealthContext.HealthProvider.constructor | src/context/HealthContext.tsx:42-48 | the initial state has empty lists, an empty current date, no summary, the mock user and no workouts |
| HealthContext.HealthProvider.Generate | src/context/HealthContext.tsx:50-56 | the mount effect sets the three lists from one date list and the current date to `dates[0]`, and leaves the summary alone |
| HealthContext.HealthProvider.DeriveSummary | src/context/HealthContext.tsx:58-68 | the summary effect sets the summary when both lists are non-empty and otherwise keeps the previous value |
| HealthContext.HealthProvider.SetCurrentDate | src/context/HealthContext.tsx:42 | the exposed setter sets the current date |
| HealthContext.HealthProvider.Value | src/context/HealthContext.tsx:70-82 | the context value passes the summary through unchanged, a missing one included, along with the provider's user and workouts |
| HealthContext.UseHealth | src/context/HealthContext.tsx:89-97 | `useHealth` fails with "useHealth must be used within a HealthProvider" exactly when there is no provider value, and otherwise returns the value unchanged |
| HealthContext.MountedSummaryMatchesLookups | src/context/HealthContext.tsx:50-68 | after mounting, the index-0 records are the ones `find` returns for the current date, and the summary's step, calorie and water ratios are theirs |
| HealthContext.Mount | src/context/HealthContext.tsx:50-68 | after both effects run, the current date is `dates[0]`, a summary for it exists, the activity lookup finds record 0, and the workouts are still empty |
| Page.HomePage.constructor | src/app/page.tsx:29-40 | the first render has empty lists, no current date and no summary |
| Page.HomePage.Generate | src/app/page.tsx:42-50 | the page's mount effect sets the three generated lists, the fixed workouts and the current date `dates[0]`, and leaves the summary alone |
| Page.HomePage.DeriveSummary | src/app/page.tsx:52-62 | the page's summary effect sets the summary when both lists are non-empty and otherwise keeps the previous value |
| Page.HomePage.CurrentActivity | src/app/page.tsx:65 | no activity is found exactly when none has the current date; a found one is the first record in the list with that date |
| Page.HomePage.CurrentNutrition | src/app/page.tsx:66 | no nutrition record is found exactly when none has the current date; a found one is the first record in the list with that date |
| Page.HomePage.CurrentWater | src/app/page.tsx:67 | no water reading is found exactly when none has the current date; a found one is the first record in the list with that date |
| Page.MountPage | src/app/page.tsx:42-67 | after both effects the three lookups find the index-0 records, a summary for the current date exists, and the workouts are the fixed list |
| Page.ActivityProgress | src/app/page.tsx:605 | the activity card's progress is 0 exactly when there is no summary or no active minutes, and otherwise it is the minutes divided by 60 |
| Page.MountedActivityProgress | src/app/page.tsx:605 | right after mounting, the activity card's progress lies in [0.5, 1.5) |
| Page.GetEventsForDate | src/app/page.tsx:151-156 | a placeholder cell has no events; otherwise the result holds exactly the workouts dated on the cell's day, each as often as in the list |
| Page.HasActivityOnDate | src/app/page.tsx:159-164 | true exactly when the cell is a day and some activity is dated on it |
| Page.SelectedActivity | src/app/page.tsx:171 | nothing exactly when the selected day has no activity, and otherwise the first activity dated on it |
| Page.CalendarSection.constructor | src/app/page.tsx:125-126 | both cursors start at today: the selected day is today and the displayed month is today's month |
| Page.CalendarSection.Prev | src/app/page.tsx:180 | Prev moves the displayed month back by exactly one and leaves the selected day alone |
| Page.CalendarSection.GoToday | src/app/page.tsx:186 | Today shows the current month and leaves the selected day alone |
| Page.CalendarSection.Next | src/app/page.tsx:192 | Next moves the displayed month forward by exactly one and leaves the selected day alone |
| Page.CalendarSection.ClickCell | src/app/page.tsx:213 | clicking a placeholder changes nothing; clicking a day selects it and leaves the displayed month alone |
| Page.CalendarSection.GenerateDays | src/app/page.tsx:129-148 | the grid has W + N cells, where W is the weekday of the 1st and N the month length; the first W cells are placeholders, cell W + d - 1 is day d, and every day sits in the column of its weekday |
| Page.CalendarShowsMockWorkouts | src/app/page.tsx:151-156 | each fixed workout appears among the events of its day's cell in the current month |
| Page.CalendarMarksWeek | src/app/page.tsx:159-164 | every day of the generated week is marked as having an activity |
| WorkoutList.SliceEnd | src/components/dashboard/WorkoutList.tsx:31 | `slice(0, end)` keeps min(end, length) rows, and a negative end counts back from the length |
| WorkoutList.NewestFirst | src/components/dashboard/WorkoutList.tsx:26-31 | min(limit, length) rows (limit 4 by default), newest first, taken from the input as a sub-multiset, and no dropped workout is newer than a kept one |
| WorkoutList.NewestFirstStable | src/components/dashboard/WorkoutList.tsx:29-30 | when nothing is cut, workouts with equal dates keep their input order |
| WorkoutList.NewestFirstStablePrefix | src/components/dashboard/WorkoutList.tsx:29-31 | for any `limit`, the kept workouts of each date are the first workouts of that date in input order |
| WorkoutList.ShowsEmptyMessage | src/components/dashboard/WorkoutList.tsx:65-103 | "No workouts found" shows exactly when no row survives the cut, which always happens for an empty input |
| WorkoutList.WorkoutIcon | src/components/dashboard/WorkoutList.tsx:34-53 | every type gets an icon, and only `other` gets the default grey flame |
| WorkoutList.WorkoutIconInjective | src/components/dashboard/WorkoutList.tsx:34-53 | no two types share an icon |
| ActivityChart.Metric | src/components/charts/ActivityChart.tsx:34-50 | steps, calories, activeMinutes and distance select `steps`, `caloriesBurned`, `activeMinutes` and `distance`; any other `dataType` falls back to steps |
| ActivityChart.ChartData | src/components/charts/ActivityChart.tsx:28-57 | one point per activity, with the same points as projecting the input, ordered oldest to newest |
| ActivityChart.ChartPointsFromActivities | src/components/charts/ActivityChart.tsx:33-56 | point i keeps the date of the i-th activity in stable oldest-first order and carries its metric |
| ActivityChart.YAxisLabel | src/components/charts/ActivityChart.tsx:60-73 | the label is empty exactly for an unknown `dataType` |
| ActivityChart.BarColor | src/components/charts/ActivityChart.tsx:76-89 | the bar is green exactly for steps and for an unknown `dataType` |
| StatCard.Clamp | src/components/dashboard/StatCard.tsx:24 | `safeProgress` lies in [0, 1], equals the input on [0, 1], and is 0 below and 1 above |
| StatCard.ClampIdempotent | src/components/dashboard/StatCard.tsx:24 | clamping twice is clamping once |
| StatCard.Round | src/components/dashboard/StatCard.tsx:58 | `Math.round` gives the nearest integer, with halves rounded up |
| StatCard.View | src/components/dashboard/StatCard.tsx:20-58 | the bar is always drawn; the bar width is the clamped progress (0 when omitted); the label is `Math.round` of it times 100, so within half a percent of it and in 0..100; the icon falls back to `icon` |

## Left out

- Rendering: JSX, Tailwind classes, charts and animation are not modelled. So are the `isToday` and `isSameDay` highlighting of calendar cells and the day-name headers.
- `formattedDate` (`EEE` weekday names) in the chart points, and the `MMM d` and `MMMM yyyy` display formats, are not modelled.
- Floating point is not modelled: ratios and the activity card's progress are exact reals. Distance keeps `u * 3 + 2` without `toFixed(1)` rounding.
- MockData.ActivityFor: the distance bound is stated before `toFixed(1)` rounding, which can round up to 5.0.
- The random draws: each `Math.random()` value is a parameter, a real in [0, 1).
- The clock: "today" is a parameter (a date, or the week's list of date strings). Time zones and time of day are not modelled; dates are local calendar days.
- HealthContext.HealthProvider.Generate: takes the week's dates as a parameter rather than calling `getPastWeekDates()`. `MockData.PastWeekDates` says what those dates are.
- Page.HomePage.Generate: takes the week's dates as a parameter, in the same way.
- Years outside 1..9999: `yyyy-MM-dd` formatting and reading back are modelled only there. `mockWorkouts` dates are tied to the format only for four-digit years.
- WorkoutList.NewestFirst and ActivityChart.ChartData assume that every record's date reads as a `yyyy-MM-dd` date. For a string that is not a valid `yyyy-MM-dd` date, `new Date(...)` gives either a time (the other forms of ECMAScript's Date Time String Format, such as `yyyy-MM` or a date with a time of day, or an engine's own formats) or NaN, which the comparator turns into a NaN result that the sort treats as 0. Neither case is modelled, and `Calendar.TimeOf`'s 0 for such a string stands for no value of the source.
- Calendar.ShiftMonth, Page.CalendarSection.Prev, Page.CalendarSection.Next and Page.CalendarSection.GenerateDays: `new Date(y, m[, d])` reads a year in 0..99 as 1900 + y (MakeFullYear, section 21.4.2.1 of ECMA-262), and a time more than 8.64e15 ms from the epoch in either direction gives an Invalid Date (TimeClip). The model keeps the year as given and never becomes invalid, so for displayed months in years 0..99, or outside years −271821..275760, its cursor and grid differ from the source's. Month overflow itself is modelled, by Euclidean division.
- date-fns (`format`, `startOfMonth`, `endOfMonth`, `parseISO`, `isToday`) is not modelled as code. The calendar arithmetic it performs is specified directly in `Calendar`.
- React effect scheduling is not modelled. React runs the mount effect first, but the summary effect's first run reads the first render's empty lists and does nothing; `Mount` and `MountPage` render that run as a `DeriveSummary` before `Generate`, then run `DeriveSummary` again for the re-render the new lists cause. Further re-renders and context propagation are not modelled.
- The settings form, URL-hash tab routing, the theme toggle and the layout are browser I/O or view selection and are not modelled. NutritionSummary's gram sum is not modelled either; `MockData.FixedTotals` covers the totals it reads.
- Calendar.FormatDate: its own contract gives only the shape (ten characters, dashes at 4 and 7). Its contents are pinned by `Calendar.ParseFormat` and `Calendar.FormatParse`.
- Page.GetEventsForDate: the contract gives the result's contents as a multiset; list order follows from `Lookup.FilterConcat`, not from its own `ensures`.
- The setter functions exposed through the context other than `setCurrentDate` are not modelled: there are none, and `user` and `workouts` have no setters.
