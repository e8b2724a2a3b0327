# Overtime ledger

A model of the overtime ledger of a shipyard time-keeping application. The backend records overtime entries per worker. It turns a start and end clock time into worked minutes, keeping only the minutes beyond the worker's base day. It splits those minutes into paid and unpaid against a monthly ceiling of 72 paid hours (4320 minutes). It also keeps one running summary row per worker and month. Two dashboard pages sit on top of it:

- The entry form checks the input and previews the duration, and refuses to post an entry without overtime.
- The summary page ranks the workers of a month by overtime and counts those at or near the ceiling.

The modules follow the source files:

- `TimeWindow` holds the window resolution and the paid/unpaid split.
- `LedgerStore` holds the two collections as values, and the value-level meaning of add, update and delete.
- `LedgerInvariant` proves that every operation keeps each summary row equal to the sum of its entries and within the ceiling.
- `WorkLogController.Ledger` is the controller as a class whose methods write the two collections step by step.
- `OvertimeController` holds the read side of the summaries.
- `EnterOT` and `SummaryPage` hold the two pages.
- `Lists.FindFirst` is `Array.prototype.find`.

Modelling choices:

- **Times and dates.** Clock times are minutes of the day. Dates are naive calendar dates (year, month, day). Entries are identified by an increasing id, and every stored id is below the counter `nextId`.
- **Listings.** A listing is the selected entries in id order.
- **The ledger invariant (`Inv`).** Every entry is well formed, and every entry's key has a row. The unique index on (worker, date, start, end) holds. Every row, whether stored or absent (read as zeros), equals the entries under its key summed afresh. No row pays more than 4320 minutes.
- **Behaviour of the code worth noting.** The model keeps each of these as the code has it:
  - A month's row is never removed. Deleting the last entry of a month leaves a row of zeros.
  - Update and delete adjust a row only if it exists (no upsert). Under the invariant it always exists.
  - An update whose new times collide with another entry of the same worker and date fails as a generic save error (`SaveFailed`), not as `DuplicateEntry`.
  - An update that omits the lunch flag deducts lunch, whatever the stored entry had.
  - Recalculating a month's summaries only returns the stored rows. `RecalculateMonthSummaries` proves that, under the invariant, these equal a recomputation.

## Model

| member | source | states |
|---|---|---|
| TimeWindow.Span | backend/controllers/worklog.controller.js:60-66 | an end at or before the start rolls to the next day: the span is 1..1440 minutes and walks forward from start to end round the clock |
| TimeWindow.SpanIsShortestWalk | backend/controllers/worklog.controller.js:60-66 | the rolled span is the shortest positive forward walk from start to end |
| TimeWindow.Resolve | backend/controllers/worklog.controller.js:60-71 | worked minutes are the span, less exactly 60 lunch minutes when deducted, never below zero |
| TimeWindow.EffectiveBaseHours | backend/controllers/worklog.controller.js:74 | an unset (zero) base is exactly 8 hours; a set base is kept |
| TimeWindow.Overtime | backend/controllers/worklog.controller.js:75-78 | overtime is the minutes beyond the base day, never negative, and zero exactly when worked minutes do not exceed the base |
| TimeWindow.Remaining | backend/controllers/worklog.controller.js:103 | the paid allowance left is never negative and tops the month up to exactly 4320 minutes |
| TimeWindow.Split | backend/controllers/worklog.controller.js:100-107 | paid plus unpaid is the overtime; paid never exceeds the allowance left; minutes go unpaid only once the allowance is used up; the month stays within the ceiling |
| TimeWindow.RemainingAfter | backend/controllers/worklog.controller.js:156 | the remainder reported after an entry is never negative: the allowance left less the entry's paid minutes when those fit, otherwise zero |
| TimeWindow.RemainingAfterIsRemainingOfNewTotal | backend/controllers/worklog.controller.js:156 | the remaining allowance the success response reports equals the allowance left after the increment |
| TimeWindow.OvernightExample | backend/controllers/worklog.controller.js:60-66 | 23:00 to 02:00 without lunch is 180 minutes |
| TimeWindow.LunchFloorExample | backend/controllers/worklog.controller.js:68-71 | 09:00 to 09:30 with lunch deducted is 0 minutes |
| TimeWindow.CapSplitExample | backend/controllers/worklog.controller.js:100-107 | with 4300 minutes already paid, 40 minutes of overtime split 20 paid and 20 unpaid |
| Lists.FindFirst | frontend/ott/src/pages/dashboard/enterOT.jsx:100 | the index found is the first element satisfying the test, and none is found exactly when no element satisfies it |
| LedgerStore.AddDecision | backend/controllers/worklog.controller.js:35-121 | a missing field, an unknown worker, no overtime (with the worked minutes and base) and a taken slot are each refused exactly in their case, in that order, and a request passing every check is accepted, even once the month's paid allowance is used up; a success stores under the next id the request's worker, date and times, the resolved window with lunch deducted unless switched off, the base as the worker's or 8 hours, overtime beyond the base, paid the lesser of overtime and the allowance left, unpaid the rest, and reports the allowance left after it |
| LedgerStore.Insert | backend/controllers/worklog.controller.js:109-141 | the entry is stored under the next id, and only its own key's row grows, by the entry's three values, created from zeros if absent |
| LedgerStore.Add | backend/controllers/worklog.controller.js:35-173 | nothing is written unless every check passes; on success both writes happen |
| LedgerStore.UpdateDecision | backend/controllers/worklog.controller.js:280-358 | an unknown entry, an unknown worker, no overtime after the update and a collision with another entry are each refused exactly in their case, and an update passing every check is accepted; a success keeps worker, date and key, takes each omitted time from the stored entry, deducts lunch unless the request switches it off, and pays the lesser of the new overtime and the allowance left without the entry's own paid minutes |
| LedgerStore.Replace | backend/controllers/worklog.controller.js:349-370 | the entry is replaced in place, and its row, if present, moves by new minus old values |
| LedgerStore.Update | backend/controllers/worklog.controller.js:280-386 | a refused update changes nothing; an accepted one replaces the entry and moves its row |
| LedgerStore.Remove | backend/controllers/worklog.controller.js:407-420 | the entry is gone, its row (if any) falls by exactly the entry's stored values, every other row stays, and no row is added or removed |
| LedgerStore.Delete | backend/controllers/worklog.controller.js:392-440 | deletion fails exactly for an unknown id and then changes nothing; otherwise it returns the stored entry and removes it |
| LedgerStore.EmptyStoreInv | backend/models/WorkLog.js:60-67 | the empty ledger satisfies the invariant, of which the unique index on (worker, date, start, end) cited here is the slot-uniqueness part |
| LedgerInvariant.SumOfLogs | backend/controllers/worklog.controller.js:210-215 | folding the listed entries gives the totals of the selected entries in the store |
| LedgerInvariant.SummaryBounds | backend/models/OvertimeSummary.js:19-33 | under the invariant every row's paid total lies in 0..4320, unpaid is non-negative and overtime is paid plus unpaid |
| LedgerInvariant.InsertPreservesInv | backend/controllers/worklog.controller.js:109-141 | inserting a well-formed entry in a free slot within the ceiling keeps the invariant |
| LedgerInvariant.AddPreservesInv | backend/controllers/worklog.controller.js:35-173 | every add, accepted or refused, keeps the invariant |
| LedgerInvariant.ReplacePreservesInv | backend/controllers/worklog.controller.js:349-370 | replacing an entry under the same key, in a free slot, within the ceiling keeps the invariant |
| LedgerInvariant.SelectedCovers | backend/controllers/worklog.controller.js:342 | a month's paid total includes each of its entries' paid minutes, so the baseline without the entry is within the ceiling |
| LedgerInvariant.UpdatePreservesInv | backend/controllers/worklog.controller.js:280-386 | every update keeps the invariant |
| LedgerInvariant.DeletePreservesInv | backend/controllers/worklog.controller.js:392-440 | every delete keeps the invariant |
| LedgerInvariant.RunPreservesInv | backend/controllers/worklog.controller.js:35-440 | any sequence of adds, updates and deletes keeps the invariant |
| LedgerInvariant.ReachableInv | backend/controllers/worklog.controller.js:35-440 | every ledger reachable from the empty one has rows equal to their entries' sums and within the ceiling |
| LedgerInvariant.AddThenDeleteRestores | backend/controllers/worklog.controller.js:126-141 | deleting what was just added returns the stored entry and restores the entries and every row exactly, except that a row the add created stays behind as zeros |
| LedgerInvariant.UpdateAppliesDelta | backend/controllers/worklog.controller.js:361-370 | under the invariant the updated entry's row exists and moves by exactly new minus old values; no other row changes |
| LedgerInvariant.AddRejectsNoOvertime | backend/controllers/worklog.controller.js:80-91 | with the fields present and the worker known, an add is refused for lack of overtime, with the worked minutes and base, exactly when worked minutes do not exceed the base; the refusal changes nothing |
| LedgerInvariant.ReceiptMatchesMonthlyRow | backend/controllers/worklog.controller.js:156 | the reported remaining allowance is the allowance of the month's row after the add |
| LedgerInvariant.AddKeepsCeiling | backend/controllers/worklog.controller.js:100-141 | under the invariant an add uses a fresh id and raises its row by the entry's paid minutes to no more than 4320 |
| WorkLogController.Ledger.constructor | backend/models/WorkLog.js:60-67 | a new ledger has no entries and no rows and is valid, its slots unique as the cited index demands |
| WorkLogController.Ledger.AddWorkLog | backend/controllers/worklog.controller.js:35-173 | creating the entry and then upserting its row gives exactly the value-level add, and keeps the invariant of a valid ledger |
| WorkLogController.Ledger.UpdateWorkLog | backend/controllers/worklog.controller.js:280-386 | saving the entry and then incrementing its row by the differences gives exactly the value-level update, and keeps the invariant of a valid ledger |
| WorkLogController.Ledger.DeleteWorkLog | backend/controllers/worklog.controller.js:392-440 | decrementing the row and then dropping the entry gives exactly the value-level delete, and keeps the invariant of a valid ledger |
| WorkLogController.Ledger.GetWorkLogsByWorker | backend/controllers/worklog.controller.js:180-221 | one of month and year without the other is refused; otherwise the listing is the selected entries and its totals are their sum; on a valid ledger a month's totals equal the month's summary row |
| WorkLogController.FoldTotals | backend/controllers/worklog.controller.js:210-215 | the loop adds up the three values of every listed log |
| OvertimeController.WorkerMonthlySummary | backend/controllers/overtime.controller.js:11-36 | the view is the stored row or zeros, and its remaining allowance is the allowance left after the row's paid total (4320 without a row) |
| OvertimeController.MonthlyViewUnderInv | backend/controllers/overtime.controller.js:11-36 | under the invariant the view is the month's entries summed afresh, and paid plus remaining is exactly 4320 |
| OvertimeController.AddThenDeleteInvisible | backend/controllers/overtime.controller.js:11-36 | recording an entry and deleting it again leaves every monthly view as it was |
| OvertimeController.MonthRows | backend/controllers/overtime.controller.js:52-55 | the rows whose key has the given month and year, each as stored |
| OvertimeController.GetAllWorkersSummaries | backend/controllers/overtime.controller.js:72-94 | refused exactly when month or year is missing; otherwise exactly the stored rows of that month, with their stored values |
| OvertimeController.RecalculateMonthSummaries | backend/controllers/overtime.controller.js:45-62 | exactly the stored rows of the month with their stored values, each of which, under the invariant, equals its entries summed afresh |
| EnterOT.ClockPattern | frontend/ott/src/pages/dashboard/enterOT.jsx:85 | the time pattern accepts exactly the zero-padded `HH:MM` spellings of the minutes of the day and those spellings with the leading zero dropped |
| EnterOT.ClockMinutes | frontend/ott/src/pages/dashboard/enterOT.jsx:107-111 | an accepted time is a minute of the day whose hour and minute are the two numbers around the colon |
| EnterOT.FormatThenParse | frontend/ott/src/pages/dashboard/enterOT.jsx:85 | every minute of the day has a padded spelling the pattern accepts, which reads back as that minute |
| EnterOT.ParseThenFormat | frontend/ott/src/pages/dashboard/enterOT.jsx:85 | every accepted spelling is the padded spelling of its minute, up to a missing leading zero |
| EnterOT.ClockSpellingUnique | frontend/ott/src/pages/dashboard/enterOT.jsx:85 | two accepted spellings of equal length that read as the same minute are the same text |
| EnterOT.ValidateForm | frontend/ott/src/pages/dashboard/enterOT.jsx:67-96 | the form passes exactly when worker and date are filled in and both times match the pattern; each message is given exactly when the checks before it pass and its own fails, in the order worker, date, missing start, missing end, malformed start, malformed end |
| EnterOT.BaseHoursMinutes | frontend/ott/src/pages/dashboard/enterOT.jsx:99-102 | the first listed worker with the selected id decides the base, with the server's fallback to 8 hours; no such worker gives 480 minutes |
| EnterOT.Preview | frontend/ott/src/pages/dashboard/enterOT.jsx:110-145 | the preview's worked minutes are the server's resolved window, its overtime the server's overtime over the base, each also split into whole hours and remaining minutes |
| EnterOT.CalculateDuration | frontend/ott/src/pages/dashboard/enterOT.jsx:104-146 | no preview until both times are filled in; otherwise the worked and overtime minutes are those the server computes, and their hour and minute parts recombine to them |
| EnterOT.HandleSubmit | frontend/ott/src/pages/dashboard/enterOT.jsx:148-175 | an invalid form is rejected; a valid form is posted, unchanged, exactly when it has overtime |
| EnterOT.SubmitGuardMatchesServer | frontend/ott/src/pages/dashboard/enterOT.jsx:155-159 | with the worker's base as the server holds it, the page posts a valid form exactly when the server would not refuse it for lack of overtime |
| SummaryPage.StatusOf | frontend/ott/src/pages/dashboard/summary.jsx:77-82 | at the limit from 4320 paid minutes, near it from 3888 (90 %), otherwise fine |
| SummaryPage.LimitMeansNothingRemains | frontend/ott/src/pages/dashboard/summary.jsx:75-82 | a worker is at the limit exactly when no paid allowance remains |
| SummaryPage.JoinWorker | frontend/ott/src/pages/dashboard/summary.jsx:63-95 | a worker's line carries the first row with the worker's id, or zeros with the full allowance and a fine status when there is none |
| SummaryPage.JoinAll | frontend/ott/src/pages/dashboard/summary.jsx:62-96 | one line per listed worker, in list order |
| SummaryPage.SortByOvertime | frontend/ott/src/pages/dashboard/summary.jsx:97 | the lines are ranked most overtime first and are a permutation of the input |
| SummaryPage.WorkersWithSummary | frontend/ott/src/pages/dashboard/summary.jsx:61-98 | every listed worker's line exactly once, ranked most overtime first |
| SummaryPage.Totals | frontend/ott/src/pages/dashboard/summary.jsx:100-112 | the header counts the listed workers; the at-limit and near-limit counts are zero exactly when no line has that status and together never exceed the lines; the overtime total is non-negative when every line's is |
| SummaryPage.StatusCountsPartition | frontend/ott/src/pages/dashboard/summary.jsx:100-112 | the at-limit, near-limit and fine counts add up to the number of lines |
| SummaryPage.SortKeepsTotals | frontend/ott/src/pages/dashboard/summary.jsx:97-104 | ranking changes neither the status counts nor the overtime total |
| SummaryPage.HeaderCountsAllWorkers | frontend/ott/src/pages/dashboard/summary.jsx:100-112 | the header's counts cover every listed worker, and equal the counts of the unranked lines |
| SummaryPage.MonthIndexInjective | frontend/ott/src/pages/dashboard/summary.jsx:114-130 | a month index names one month of one year |
| SummaryPage.MonthSelector.constructor | frontend/ott/src/pages/dashboard/summary.jsx:31-33 | the page opens on the current month |
| SummaryPage.MonthSelector.GoToPreviousMonth | frontend/ott/src/pages/dashboard/summary.jsx:114-121 | the selection moves exactly one month back and stays a valid month |
| SummaryPage.MonthSelector.GoToNextMonth | frontend/ott/src/pages/dashboard/summary.jsx:123-130 | the selection moves exactly one month on and stays a valid month |
| SummaryPage.MonthSelector.GoToCurrentMonth | frontend/ott/src/pages/dashboard/summary.jsx:132-135 | the selection returns to the current month |
| SummaryPage.NextThenPrevious | frontend/ott/src/pages/dashboard/summary.jsx:114-130 | a month on and a month back restores the same month and year |
| SummaryPage.PreviousThenNext | frontend/ott/src/pages/dashboard/summary.jsx:114-130 | a month back and a month on restores the same month and year |

## Left out

- Date and time parsing: the time-zone handling of JavaScript dates, the ISO-with-`T` branch of `parseDateTime`, seconds and `Math.round` are not modelled. Times arrive as minutes of the day and dates as naive calendar dates. The "Invalid start or end time" answer cannot arise for such values.
- Time spellings: the server's unique index compares the time strings. The model compares minute values, so `8:00` and `08:00` count as the same slot. The form's pattern accepts the four-character spelling, and how the server parses it is not modelled.
- Stored base minutes: the controller writes the base as `baseMinutesDeducted` (backend/controllers/worklog.controller.js:116 and 352), but the work-log schema names the field `baseMinutes` with a default of 480 (backend/models/WorkLog.js:26-29). Under the schema's default strict mode the write is dropped, so the source stores 480 whatever the worker's base. The model's `Entry.baseMinutes` keeps the base times 60 that the controller intends; no other value depends on it.
- Base hours are whole numbers here. The worker record stores a JavaScript number and the worker form steps by half an hour, so a base such as 7.5 hours (450 base minutes) is possible in the source. The model does not cover fractional bases, and the overtime they give.
- Notes and their trimming, the `createdAt`/`updatedAt` timestamps and the worker details joined by `populate` are not modelled.
- The `ObjectId` validity checks on worker and log ids are not modelled.
- Listing order: `GetWorkLogsByWorker` lists entries in id order. The source sorts by date and creation time, newest first, which changes the order but not the totals.
- Concurrency: each operation runs atomically here. The source's separate reads and writes can race, and no partial-update condition is modelled.
- getWorkerOvertimeSummary reads the clock for its current month and is not modelled. getAllWorkLogs and its department filter are not modelled either.
- Floating point: hour displays (`totalOTHours`, `remainingPaidHours`, `progressPercent`, `toFixed`) are not modelled. The page totals are kept in minutes. The status thresholds 72 h and 64.8 h become 4320 and 3888 minutes, which is exact for whole minutes.
- CSV export, loading and error state, success messages and the timed clearing of them are not modelled.
- The populate-versus-raw `workerId` comparison on the summary page is not modelled: a row matches a worker by id string.
- EnterOT.CalculateDuration: requires each time to be empty or to match the time pattern. For other text the source computes with `NaN`, and the model does not cover those values.
- SummaryPage.SortByOvertime: the order of lines with equal overtime is not stated, although the insertion used keeps them in list order, as JavaScript's stable sort does.
- The route table binds names the overtime controller does not export. The model follows the controller functions, not the routes.
