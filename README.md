# Driver-Time business rules in Dafny

DriverTime is a small dashboard for recording drivers' working hours
against targets. This project models its business rules. Rows that the
hosted store returns are given as inputs. The model covers:

- the server actions (`app/actions.ts`). `getDriverStats` folds the time
  entries into a map keyed by driver name. It keeps the map's insertion
  order, then sorts the records by balance, highest first. `getEntries` and
  `getDriverStats` degrade a store error to an empty list. `deleteEntry`
  refuses a missing id before any delete is sent.
- the dashboard page (`app/page.tsx`). It computes the header totals over
  all entries, each history row's difference and its
  Overperform/Underperform/Exact status, and how signs and colours are shown.
- the shift dashboard (`components/TimeEntryForm.tsx`):
  - the overnight roll-forward of a shift's end;
  - the statutory break of 0, 30 or 45 minutes;
  - the net duration;
  - the 96-entry quarter-hour picker;
  - the report's month range and totals;
  - the month picker;
  - the optimistic removal of a deleted shift or driver from the lists on
    screen.

The component's view state is the class `TimeEntryForm.Dashboard`. Its
handlers are methods. Its invariant says that the break on display is the
policy's break for the entered times.

Modelling choices:

- Hours in entries are `real`. A value that is not a number is `None`.
- Shift instants are whole minutes of local wall-clock time. `day * 1440 +
  minute` stands for minute `minute` of day number `day`. Every time the
  form offers is a quarter hour, so every elapsed time is exact.
- Calendar dates are `(year, month, day)` values with the Gregorian leap
  rule.
- The code groups through a `Map`, which keeps insertion order, and sorts
  with the stable `Array.prototype.sort`, modelled as a functional insertion
  sort. So drivers with equal balance
  appear in the order of their first entries, and `RankingCorrect` proves
  exactly that.

Files: `store.dfy` (Option, store replies), `actions.dfy`, `overview.dfy`,
`calendar.dfy`, `shift_rules.dfy`, `time_entry_form.dfy`.

## Model

| member | source | states |
|---|---|---|
| `Actions.GetEntries` | app/actions.ts:27-41 | a store error yields the empty list; otherwise the rows are returned as they came |
| `Actions.GetDriverStats` | app/actions.ts:43-83 | a store error yields `[]`; otherwise the result is the leaderboard `Ranking(rows)`: sorted by balance, each balance equal to actual minus target, and empty for no rows. Loop invariants: the map holds each driver's sums over the rows seen so far, and the insertion order is their first-appearance order |
| `Actions.RankingCorrect` | app/actions.ts:56-82 | the leaderboard has exactly one record per driver name in the input and only those. Each record's totals are the sums over that driver's entries, and its balance is actual minus target. The list is sorted non-increasingly by balance. Records with equal balance appear in the order of their drivers' first entries |
| `Actions.BalanceIsDifference` | app/actions.ts:74-76 | the balance accumulated on its own equals total actual minus total target |
| `Actions.AbsentStatIsZero` | app/actions.ts:64-69 | a driver with no entry has the zero record the fold starts from |
| `Actions.FirstIndex` | app/actions.ts:63-64 | the position found is the first entry of that driver, or the end when there is none |
| `Actions.FirstAppearanceMembers` | app/actions.ts:63-78 | the map's keys are exactly the driver names of the input |
| `Actions.FirstAppearanceDistinct` | app/actions.ts:78 | the map holds each name once |
| `Actions.FirstAppearanceOrdered` | app/actions.ts:63-78 | the map's insertion order is the order of the drivers' first entries |
| `Actions.InsertByBalance` | app/actions.ts:82 | one insertion step of the sort adds exactly one record (multiset) |
| `Actions.SortByBalance` | app/actions.ts:82 | the sort returns a permutation of its input |
| `Actions.InsertKeepsRanking` | app/actions.ts:82 | inserting a record of an earlier driver keeps the order by balance, ties by first appearance |
| `Actions.SortKeepsRanking` | app/actions.ts:82 | the sort, applied to records in first-appearance order, orders by balance and keeps equal balances in first-appearance order (stability) |
| `Actions.SortKeepsBalanceSum` | app/actions.ts:82 | sorting does not change the sum of the balances |
| `Actions.GroupedBalanceTotal` | app/actions.ts:63-79 | the grouped records' balances add up to the sum of `actual - target` over all entries |
| `Actions.TotalDiffPermutation` | app/actions.ts:46-48 | the sum of `actual - target` is the same for any two orderings of the same rows, so the unordered query does not change it |
| `Actions.RankingBalanceTotal` | app/actions.ts:63-82 | the leaderboard's balances add up to the sum of `actual - target` over all entries |
| `Actions.DeleteEntry` | app/actions.ts:85-101 | a missing or empty id throws "ID is required to delete an entry" and no delete is issued. Otherwise a delete for exactly that id is issued. The call then revalidates when the store succeeds and throws "Failed to delete time entry" when it fails |
| `Overview.NumberOrZero` | app/page.tsx:15-16 | no contract of its own: a number counts as itself and a non-number as 0. Its use in the totals is stated by `TotalBalanceIsDifferenceSum` |
| `Overview.TotalTarget` | app/page.tsx:15 | no contract of its own: the header's total target. `TotalsNonNegative` bounds it, and `TotalBalanceIsTotalDiff` relates it to the rows |
| `Overview.TotalActual` | app/page.tsx:16 | no contract of its own: the header's total actual hours. `TotalsNonNegative` bounds it, and `TotalBalanceIsTotalDiff` relates it to the rows |
| `Overview.TotalBalance` | app/page.tsx:17 | no contract of its own: the header balance. `TotalBalanceIsDifferenceSum`, `TotalBalanceIsTotalDiff` and `TotalBalanceMatchesLeaderboard` state what it equals |
| `Overview.RowDiff` | app/page.tsx:114 | no contract of its own: a row's difference, `None` for `NaN`. `RowStatusOf`, `StatusLabelOfRow` and `RowStyle` state how it is classified and shown |
| `Overview.StatusLabel` | app/page.tsx:154-156 | no contract of its own: the badge text of a status. Its value for every row is stated by `StatusLabelOfRow` |
| `Overview.TotalBalanceIsDifferenceSum` | app/page.tsx:15-17 | the header balance (total actual minus total target, non-numbers counted as 0) is the sum of every entry's own difference |
| `Overview.TotalsNonNegative` | app/page.tsx:15-16 | with non-negative hours both header totals are non-negative |
| `Overview.TotalBalanceIsTotalDiff` | app/page.tsx:15-17 | for all-numeric rows the header balance is the sum of `actual - target` over the entries |
| `Overview.TotalBalanceMatchesLeaderboard` | app/page.tsx:10-17 | for all-numeric rows the header balance equals the sum of the leaderboard's per-driver balances. The leaderboard may be built from the same rows in any order: its query is unordered, while the listing is ordered by date |
| `Overview.RowStatusOf` | app/page.tsx:114-117 | a row is positive, negative or exact as actual is above, below or equal to target. At most one flag holds, and exactly one when both values are numbers. A `NaN` difference sets none |
| `Overview.StatusLabelOfRow` | app/page.tsx:154-156 | the badge reads Overperform, Underperform or Exact for a positive, negative or zero difference, and is empty for `NaN` |
| `Overview.HeaderStyle` | app/page.tsx:41-65 | the header balance shows '+' only when strictly positive. It is emerald when at least zero, so zero is emerald without '+', and rose when negative |
| `Overview.RowStyle` | app/page.tsx:131-140 | a row's difference shows '+' only when positive. It is emerald when positive, rose when negative, zinc when exactly zero and unstyled for `NaN` |
| `ShiftRules.ShiftEnd` | components/TimeEntryForm.tsx:88-93 | an end before the start moves one day forward, otherwise it stays. The elapsed time is in [0, 24h) and the clock time of the end is kept |
| `ShiftRules.BreakMinutes` | components/TimeEntryForm.tsx:95-100 | the break is 0, 30 or 45 minutes. Its tiers are stated by `BreakTiers`, its exclusive thresholds by `BreakBoundaries` and its monotonicity by `BreakMonotone` |
| `ShiftRules.BreakTiers` | components/TimeEntryForm.tsx:98-100 | the break is 45 minutes above 9 hours, 30 minutes above 6 hours up to 9, and 0 otherwise |
| `ShiftRules.BreakBoundaries` | components/TimeEntryForm.tsx:99-100 | both thresholds are exclusive: exactly 9h gives 30 and exactly 6h gives 0 |
| `ShiftRules.BreakMonotone` | components/TimeEntryForm.tsx:98-100 | a longer shift never gets a shorter break |
| `ShiftRules.BreakShorterThanShift` | components/TimeEntryForm.tsx:95-102 | a non-zero break is shorter than the shift, so a policy break never exceeds the elapsed time |
| `ShiftRules.OvernightShift` | components/TimeEntryForm.tsx:88-100 | 22:00 to 06:00 ends on the next day, lasts 8 hours and gets a 30-minute break |
| `ShiftRules.NetDuration` | components/TimeEntryForm.tsx:257-261 | 0 when a timestamp is missing. Otherwise, in minutes, end minus start minus break, with no clamping |
| `ShiftRules.NetDurationOfPolicyShift` | components/TimeEntryForm.tsx:257-260 | a shift entered through the form with the policy's break has a net duration in [0, 24) hours |
| `ShiftRules.NetDurationExamples` | components/TimeEntryForm.tsx:257-260 | 08:00 to 17:00 with a 30-minute break gives 8.5 hours. A missing start gives 0. A break longer than the span gives a negative value |
| `ShiftRules.Pad2` | components/TimeEntryForm.tsx:264-265 | a number below 100 is padded to exactly two characters. That the padding keeps the numeric order is used by `ClockTextOrdered` |
| `ShiftRules.ClockText` | components/TimeEntryForm.tsx:264-266 | no contract of its own: the `HH:MM` text of a minute of the day. `ParseClockText` proves it reads back, and `ClockTextOrdered` that it keeps the order |
| `ShiftRules.TimeOptions` | components/TimeEntryForm.tsx:263 | the picker has 96 entries |
| `ShiftRules.TimeOptionAt` | components/TimeEntryForm.tsx:263-267 | entry i is the zero-padded `HH:MM` of minute 15·i and reads back as that minute |
| `ShiftRules.ParseClockText` | components/TimeEntryForm.tsx:218-219 | an `HH:MM` text reads back as the minute of the day it was written from |
| `ShiftRules.TimeOptionsIncreasing` | components/TimeEntryForm.tsx:263-267 | the entries are strictly increasing as strings and have no duplicates |
| `ShiftRules.ClockTextOrdered` | components/TimeEntryForm.tsx:264-266 | zero-padded clock texts of earlier minutes sort first |
| `ShiftRules.DriverName` | components/TimeEntryForm.tsx:270-276 | a row's non-empty name is returned as it is, and so is the first row's for a list. "Unbekannt" is returned when the join, the row or the name is missing or the name is empty; the result is never empty |
| `ShiftRules.Without` | components/TimeEntryForm.tsx:306 | no item left has the deleted id, and the list never grows. Counts are stated by `WithoutSpec`, order by `WithoutAppend` |
| `ShiftRules.WithoutSpec` | components/TimeEntryForm.tsx:332 | the filter removes every item with that id and keeps every other item as many times as it occurred |
| `ShiftRules.WithoutAppend` | components/TimeEntryForm.tsx:306 | filtering distributes over concatenation, so the kept items keep their relative order |
| `ShiftRules.WithoutAbsent` | components/TimeEntryForm.tsx:306 | deleting an id that no item has leaves the list unchanged |
| `Calendar.MonthRange` | components/TimeEntryForm.tsx:148-151 | the range runs from the first of the month to a valid date of the same month whose next day is the first of the following month |
| `Calendar.DayBefore` | components/TimeEntryForm.tsx:151 | day zero of a month is the valid date whose next day is that month's first |
| `Calendar.MonthRangeIsWholeMonth` | components/TimeEntryForm.tsx:148-154 | the range ends on the month's last calendar day and holds exactly the valid dates of that month |
| `Calendar.MonthRangeExamples` | components/TimeEntryForm.tsx:148-151 | 2024-02 ends on the 29th, and 2023-02 and 1900-02 on the 28th. 2000-02 ends on the 29th, December on the 31st and April on the 30th |
| `Calendar.MonthAt` | components/TimeEntryForm.tsx:282 | the month with a given month index, normalised as `new Date(y, m - i, 1)` normalises. It is always a valid month and has exactly that index. `NextMonthAt` proves that stepping the index steps the calendar month |
| `Calendar.NextMonthAt` | components/TimeEntryForm.tsx:282 | counting a month index up by one gives the calendar's next month, across year ends too |
| `TimeEntryForm.MonthOptions` | components/TimeEntryForm.tsx:278-288 | 12 valid months, the first the current one. Each is the calendar month before the previous option |
| `TimeEntryForm.SumReport` | components/TimeEntryForm.tsx:162-175 | the totals loop yields the sum of `duration - break/60` and the sum of break minutes, and 0/0 for no rows |
| `TimeEntryForm.ReportHoursAgree` | components/TimeEntryForm.tsx:162-171 | the total hours are the sum of the net durations the table shows. In minutes they are total elapsed time minus total breaks |
| `TimeEntryForm.ReportOfPolicyShifts` | components/TimeEntryForm.tsx:164-171 | shifts with policy breaks give a non-negative total, with at most 45 break minutes per shift |
| `TimeEntryForm.Dashboard.constructor` | components/TimeEntryForm.tsx:36-39 | the form starts on today, 08:00 to 17:00. After the break effect the break is 30, and no rows are loaded |
| `TimeEntryForm.Dashboard.UpdateBreak` | components/TimeEntryForm.tsx:87-103 | the effect sets the break to the policy's break for the entered date and times, with the end rolled forward; it is 0, 30 or 45 |
| `TimeEntryForm.Dashboard.EditShiftTimes` | components/TimeEntryForm.tsx:87-103 | after the date or a clock time changes, the break on display again matches the policy |
| `TimeEntryForm.Dashboard.SaveShift` | components/TimeEntryForm.tsx:214-234 | nothing is inserted without a selected driver. Otherwise the insert has the user, the driver and the entered start. Its end keeps the entered clock time and lies less than a day after the start. Its break is the policy's break for that span, the same rule as the preview |
| `TimeEntryForm.Dashboard.FetchShifts` | components/TimeEntryForm.tsx:111-126 | returned rows replace the shift list; an error leaves it. The class invariant is kept |
| `TimeEntryForm.Dashboard.FetchDrivers` | components/TimeEntryForm.tsx:106-109 | returned rows replace the driver list; an error leaves it. The class invariant is kept |
| `TimeEntryForm.Dashboard.DeleteShift` | components/TimeEntryForm.tsx:314-336 | if confirmed and the store succeeds, the list loses exactly the shifts with that id; otherwise it is unchanged. The class invariant is kept |
| `TimeEntryForm.Dashboard.DeleteDriver` | components/TimeEntryForm.tsx:290-310 | if confirmed and the store succeeds, the list loses exactly the drivers with that id; otherwise it is unchanged. The class invariant is kept |
| `TimeEntryForm.Dashboard.FetchReport` | components/TimeEntryForm.tsx:137-177 | the query range is the month's range. Returned rows, even none, become the report data with their totals; on an error both are left unchanged. The class invariant is kept |

## Left out

- `addTimeEntry` (app/actions.ts:7-25) is not modelled. It parses the form with `parseFloat` and inserts the row. Its only branch turns a store error into a thrown error, the same shape as `deleteEntry`'s.
- The store queries themselves are not modelled: select, insert, delete and their filters and orderings (`.eq`, `.gte`, `.lte`, `.order`, `.limit`). Their replies are inputs, so the report's driver filter and the month filter on the rows are not modelled either. A driver deleted in the store may cascade to its shifts there; that is not modelled.
- Audit-log writes are not modelled. They are best-effort second writes, pure I/O. This also leaves out `addDriver` and `fetchAuditLogs`, and the driver-name lookup in `saveShift` that only feeds the audit text.
- Authentication and sessions are not modelled: `init`, `handleSignOut`, app/login/page.tsx and components/SignOutButton.tsx.
- React scheduling of effects, the success-message timer, `alert` and `window.print` are left out, as is all rendering. `confirm` becomes the `confirmed` parameter of the delete handlers.
- app/reports/page.tsx and components/DriverLeaderboard.tsx are presentation. `getDriverReport` and `getDriversList`, which the reports page imports, are not part of this model.
- Number formatting and coercion are not modelled: `toFixed`, `parseFloat`, `Number`, and `NaN` propagating through the leaderboard sums. The leaderboard takes numeric hours. The page treats a non-number as `None`.
- Locale formatting (`toLocaleString`, `toLocaleDateString`) and the month labels of the month picker are not modelled.
- Rounding of the hour sums is not modelled. The code adds IEEE doubles (app/actions.ts:74-76, app/page.tsx:15-17) and the model adds exact reals. So `Actions.BalanceIsDifference`, `Overview.TotalBalanceMatchesLeaderboard` and the order of exact ties in `Actions.RankingCorrect` hold only up to rounding in the program. With hours such as 0.1, for example, `balance` and `total_actual - total_target` can differ in the last bits.
- Timezone and DST behaviour of JavaScript `Date` is not modelled; the model uses timezone-free calendar arithmetic. The code differs from it in these ways:
  - The initial form date and report month (components/TimeEntryForm.tsx:23, 36) are taken from `toISOString()`, which gives the UTC date. East of UTC, shortly after midnight, the form opens on the previous day, or the previous month on a month's first day. West of UTC, in the late evening, it opens on the next day, or the next month on a month's last day.
  - `new Date(y, m, 0).toISOString()` converts local midnight to UTC. East of UTC that yields the day before the month's last day.
  - `getMonthOptions` formats months with `toISOString`. East of UTC that yields the previous month.
  - Across a DST change, `setDate(+1)` does not add exactly 24 hours.
- The text forms of dates are not modelled. The report month is a `(year, month)` value, not a `YYYY-MM` string split on '-', and the form's date is a day number. The link between day numbers and calendar dates is not modelled.
- `Calendar.MonthRange`: requires a month from 1 to 12, the only months the month picker and the initial `YYYY-MM` value produce.
- `TimeEntryForm.Dashboard.SaveShift`: requires the class invariant that the break on display matches the entered times, which the constructor establishes and every handler's contract preserves.
