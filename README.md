# Personal fitness tracker: the date-keyed daily stats store

This project models the logic of a small personal fitness tracker. The
tracker keeps calories, protein and miles for the current day. It stores one
record per day under a `stats-<date>` key in a local string-keyed store, plus
a `last-date` marker. The model covers three screens:

- **Today** (`today.dfy`, module `Today`). The class `TodayController` holds
  the three counters, the three input fields and the store. Its methods model
  these handlers:
  - adding and subtracting amounts, clamped at zero;
  - start-up: rollover detection, then hydrating the counters, then writing the marker;
  - the body of the debounced save;
  - the confirmed reset.
  The same module holds the pure day-of-month suffix function. Start-up, save
  and reset are also given as functions of the store (`InitStore`,
  `InitCounters`, `SaveStore`, `ResetStore`). The methods are proved against
  these functions, and the lemmas are stated about them.
- **Averages** (`aggregates.dfy`, module `Aggregates`). `GetTotals` is the
  `for` loop over the last N day keys. It is proved against `Scan`, a
  recursive sum over the qualifying days. `LoadStats` computes the weekly
  (7-day) and monthly (30-day) averages.
- **History** (`calendar.dfy`, module `Calendar`). `LoadEntries` filters the
  `stats-` keys, strips the prefix, reads missing fields as 0, collects the
  entries and sorts them newest first. The loop is proved against `Collect`.
  The sort is the insertion sort `SortDesc`, proved to order and to permute.

`store.dfy` (module `Store`) holds the shared vocabulary:
- the store as a `map<string, Value>`;
- a stored value is a serialized stats object (`Json`) or any other string (`Text`);
- `Get` models `getItem`, followed by the truthiness test, `JSON.parse` and the `|| 0` defaults;
- `Encode` models `JSON.stringify` of a record.

Injected parameters:
- The Today screen's date is the string `today`.
- The date of the day `offset` days back, as the Averages screen formats it, is `dateOf(offset)`.
- The date order of the History screen is `time(date)`.
- The key list `getAllKeys` resolves to is `keys`.

## Behaviour worth knowing

- **Two key formats.** The Today screen writes its record under
  `stats-<Month Dth, YYYY>` (app/index.tsx:70-78). The Averages screen reads
  `stats-<YYYY-MM-DD>` (app/aggregates.tsx:23-36). The model keeps `today` and
  `dateOf` as separate parameters. `Aggregates.TodaySaveMissedByWindow`
  proves that when no date of the window is spelled like the Today screen's
  date, a save leaves the averages unchanged. `Aggregates.TodaySaveCountedBySharedWindow`
  proves that with one shared spelling a saved day with activity is counted.
- **Parse errors in the Averages screen.** A stored string that does not parse is not
  treated as a missing day. `JSON.parse` throws inside `getTotals`, and the
  `catch` of `loadStats` only logs, so neither average is updated
  (app/aggregates.tsx:37-39, 65-67). The model follows the code: `Scan`
  yields `None`, and `LoadStats` returns the averages shown before.
- **Start-up with a corrupt record for today.** When there is no rollover
  and today's record does not parse, start-up stops in its `catch` before
  writing the marker (app/index.tsx:102-113). There is no rollover when the
  `last-date` marker names today, and also when it is missing or empty,
  as on first launch. `InitAborts` models this, and
  `InitAbortsOnlyOnCorruptToday` states exactly when it happens.
- **A screen left open past midnight.** The date and today's key are
  recomputed on every render (app/index.tsx:53, 70-78), but start-up runs
  only on mount (app/index.tsx:84-116). The save and the reset use the key
  of their own render (app/index.tsx:121-131, 152-161). After midnight the
  next change saves the previous day's counters under the new day's key,
  and nothing rolls over. `TodayController` keeps the mount date for
  `Init` and passes the render's date to `Save` and `Reset`.
  `SaveAfterMidnight` states the consequence.
- **The rollover's re-write.** The rollover branch writes the previous day's string back
  unchanged (app/index.tsx:89-94). In effect the store does not change, and
  `InitKeepsOtherKeys` states it.

## Model

| member | source | states |
|---|---|---|
| `Store.StatsKey` | app/index.tsx:78 | a day's key is `stats-` followed by the date; it is never the `last-date` key |
| `Store.Truthy` | app/calendar.tsx:19 | definition: the `if (item)` test, false only for the empty string; characterised by `Store.Get` and `Store.Encode` |
| `Store.ReadDoc` | app/calendar.tsx:24-26 | definition: a missing or falsy field read as 0; characterised by `Store.Encode` and `Store.Get` |
| `Store.StatsKeyInjective` | app/calendar.tsx:21 | different dates give different keys, so stripping the prefix recovers the date |
| `Store.Encode` | app/index.tsx:124-125 | the serialized record is truthy and reads back, with missing fields read as 0, as the same record |
| `Store.Get` | app/calendar.tsx:18-26 | a read is absent exactly when the key is missing or its string is empty, fails exactly when a non-empty string is not a serialized object, and otherwise yields the parsed record |
| `Today.JsRem` | app/index.tsx:58 | JavaScript's `%`: equals the mathematical remainder for non-negative dividends and is non-positive for negative ones |
| `Today.DaySuffix` | app/index.tsx:56-68 | "st" exactly for positive d ending in 1 other than 11, "nd" for those ending in 2 other than 12, "rd" for those ending in 3 other than 13, and "th" for everything else (including 11 to 13 and every d <= 0) |
| `Today.DaySuffixIsOrdinal` | app/index.tsx:56-68 | for every day of a month (1 to 31) the suffix is the English ordinal suffix |
| `Today.Clamp` | app/index.tsx:139 | `Math.max(0, x)`: the result is non-negative, at least x, and is x or 0 |
| `Today.Added` | app/index.tsx:136-142 | a NaN amount leaves the counter unchanged; a number n gives max(0, prev + n), never negative |
| `Today.Subtracted` | app/index.tsx:144-150 | a NaN amount leaves the counter unchanged; a number n gives max(0, prev - n), never below zero |
| `Today.AddNegativeIsSubtract` | app/index.tsx:137-147 | adding -n is the same as subtracting n (the clamped signed adjustment) |
| `Today.SubtractUndoesAdd` | app/index.tsx:137-147 | for a non-negative counter, subtracting what was just added restores it |
| `Today.SubtractClampsAtZero` | app/index.tsx:145-147 | subtracting empties a non-negative counter exactly when the amount is at least the counter |
| `Today.With` | app/index.tsx:136-150 | a handler changes the one counter it is given and no other |
| `Today.RollsOver` | app/index.tsx:88 | definition: the marker is a non-empty string other than today; a serialized object under the marker counts, since it is truthy and never equals a long-form date; characterised by `Today.InitRollover` and `Today.InitSameDay` |
| `Today.InitAborts` | app/index.tsx:102-104 | definition: after the rollover branch, today's stored string does not parse; characterised by `Today.InitAbortsOnlyOnCorruptToday` |
| `Today.InitStore` | app/index.tsx:84-116 | definition: the store after start-up; characterised by `Today.InitMarksToday`, `Today.InitRollover`, `Today.InitKeepsOtherKeys`, `Today.InitSameDay` and `Today.InitIdempotent` |
| `Today.InitCounters` | app/index.tsx:97-108 | definition: the counters after start-up; characterised by `Today.InitRollover`, `Today.InitSameDay` and `Today.InitNonNegative` |
| `Today.SaveStore` | app/index.tsx:123-125 | definition: the store after a save; characterised by `Today.SaveThenGet` and `Today.SaveThenInitRestores` |
| `Today.ResetStore` | app/index.tsx:161 | definition: the store after a reset; characterised by `Today.ResetThenInit` |
| `Today.InitAbortsOnlyOnCorruptToday` | app/index.tsx:102-113 | start-up aborts exactly when there is no rollover and today's stored string does not parse |
| `Today.InitMarksToday` | app/index.tsx:110 | after a start-up that does not abort, `last-date` maps to today; an aborted one leaves the store as it was |
| `Today.InitRollover` | app/index.tsx:88-100 | on rollover, today's record is removed, the marker names today and all three counters are 0 |
| `Today.InitKeepsOtherKeys` | app/index.tsx:88-96 | start-up leaves every key other than today's record and the marker unchanged, the previous day's record included |
| `Today.InitSameDay` | app/index.tsx:102-110 | when the marker already names today, the store is unchanged, and the counters come from today's record with missing fields as 0, or stay as they were when there is none |
| `Today.InitIdempotent` | app/index.tsx:84-116 | a second start-up changes neither the store nor the counters |
| `Today.InitNonNegative` | app/index.tsx:97-107 | with non-negative stored records and counters, start-up keeps both non-negative |
| `Today.SaveThenGet` | app/index.tsx:124-125 | after a save, today's key reads back as exactly the saved record, and every other key reads as before |
| `Today.SaveThenInitRestores` | app/index.tsx:102-125 | a save followed by a same-day start-up restores the saved counters and leaves the store as saved |
| `Today.SaveNonNegative` | app/index.tsx:124-125 | saving non-negative counters keeps every stored record non-negative |
| `Today.ResetThenInit` | app/index.tsx:158-161 | after a reset, today's key resolves to nothing, and a same-day start-up keeps the zeroed counters at zero |
| `Today.RolloverExample` | app/index.tsx:88-100 | with marker "June 4th, 2024" and today "June 5th, 2024", the June 4th record survives unchanged and the counters start from zero |
| `Today.SaveAfterMidnight` | app/index.tsx:53-131 | with the screen open past midnight, a save under the new day's key stores the old day's counters without zeroing them and leaves the old day's record alone; the next start-up on the new day deletes that record and zeroes the counters |
| `Today.TodayController.constructor` | app/index.tsx:46-51 | counters start at 0, input fields empty |
| `Today.TodayController.SetInput` | app/index.tsx:184-185 | typing into a field changes that field only |
| `Today.TodayController.Add` | app/index.tsx:136-142 | the field's counter becomes `Added(counter, field)`, the field is cleared in every case, nothing else changes, and non-negative counters stay non-negative |
| `Today.TodayController.Subtract` | app/index.tsx:144-150 | the field's counter becomes `Subtracted(counter, field)`, the field is cleared, nothing else changes, and counters stay non-negative |
| `Today.TodayController.Init` | app/index.tsx:85-114 | the new store and counters are `InitStore` and `InitCounters` of the old ones; input fields unchanged; non-negativity kept |
| `Today.TodayController.Save` | app/index.tsx:122-129 | the store gets exactly the record `{calories, protein, miles}` under the key of the render's date, and nothing else changes |
| `Today.TodayController.Reset` | app/index.tsx:157-162 | all counters become 0 and only the key of the render's date is removed from the store |
| `Aggregates.Qualifies` | app/aggregates.tsx:41 | definition: the metrics of a day sum to more than 0; characterised by `Aggregates.ScanNoDaysIff` |
| `Aggregates.Step` | app/aggregates.tsx:36-47 | definition: one iteration of the loop; characterised through `Aggregates.Scan` |
| `Aggregates.Scan` | app/aggregates.tsx:30-48 | definition: the accumulators after offsets 0 to n - 1, or a rejection; characterised by `Aggregates.ScanNoneIff`, `Aggregates.ScanDaysBound`, `Aggregates.ScanNoDaysIff`, `Aggregates.ScanMonotone` and `Aggregates.ScanLocal` |
| `Aggregates.Totals` | app/aggregates.tsx:29-58 | definition: what `getTotals(days)` resolves to; characterised by `Aggregates.TotalsNonNegative`, `Aggregates.TotalsZeroWhenNoActivity` and `Aggregates.GetTotals` |
| `Aggregates.Average` | app/aggregates.tsx:50-57 | with no counted day the result is exactly {0, 0, 0}; otherwise each average times the day count is that metric's sum |
| `Aggregates.ScanStaysNone` | app/aggregates.tsx:37-39 | once a day fails to parse, every longer window fails too |
| `Aggregates.ScanNoneIff` | app/aggregates.tsx:35-39 | the computation rejects exactly when some day of the window holds a string that does not parse |
| `Aggregates.ScanDaysBound` | app/aggregates.tsx:35-45 | `daysWithData` never exceeds the number of days |
| `Aggregates.ScanNoDaysIff` | app/aggregates.tsx:38-45 | no day is counted exactly when no day of the window has a record whose metrics sum to more than 0 |
| `Aggregates.ScanMonotone` | app/aggregates.tsx:35-45 | a wider window succeeds whenever a narrower one does, and counts at least as many days |
| `Aggregates.ScanLocal` | app/aggregates.tsx:35-37 | the result depends only on the keys for offsets 0 to N - 1 |
| `Aggregates.ScanNonNegative` | app/aggregates.tsx:41-44 | with non-negative records, every running sum is non-negative |
| `Aggregates.TotalsNonNegative` | app/aggregates.tsx:53-57 | with non-negative records, every average is non-negative |
| `Aggregates.TotalsZeroWhenNoActivity` | app/aggregates.tsx:51 | when no day of the window qualifies, the result is exactly {0, 0, 0} |
| `Aggregates.WeekWithinMonth` | app/aggregates.tsx:60-61 | if the 7-day window rejects, so does the 30-day one; the month counts at least the days of the week |
| `Aggregates.ThreeActiveDaysExample` | app/aggregates.tsx:35-57 | a week whose days read 100 calories, missing, 200, all zero, missing, 300, all zero averages to exactly 200 calories: the zero and missing days stay out of the denominator |
| `Aggregates.TodaySaveMissedByWindow` | app/aggregates.tsx:23-36 | when no window date equals the Today screen's date string, a save by the Today screen leaves the averages unchanged |
| `Aggregates.TodaySaveCountedBySharedWindow` | app/aggregates.tsx:35-45 | when offset 0 is spelled like the Today screen's date, a saved day with activity is counted |
| `Aggregates.GetTotals` | app/aggregates.tsx:29-58 | the loop's result is `Totals`: the averages of `Scan` over offsets 0 to days - 1, or a rejection |
| `Aggregates.LoadStats` | app/aggregates.tsx:19-67 | weekly (7 days) and monthly (30 days) averages, both replaced only when neither computation rejects |
| `Calendar.StatKeys` | app/calendar.tsx:14 | exactly the keys that start with `stats-` are kept, no more than there were, and without duplicates |
| `Calendar.ReplaceFirst` | app/calendar.tsx:21 | definition: `replace` with a string pattern, the first occurrence removed; characterised by `Calendar.KeyDate` |
| `Calendar.EntryOf` | app/calendar.tsx:21-27 | definition: the entry pushed for a key; characterised by `Calendar.CollectSound` and `Calendar.CollectComplete` |
| `Calendar.Collect` | app/calendar.tsx:15-29 | definition: the `data` array after the loop, or a rejection; characterised by `Calendar.CollectNoneIff`, `Calendar.CollectLength`, `Calendar.CollectSound`, `Calendar.CollectComplete` and `Calendar.CollectDistinctDates` |
| `Calendar.KeyDate` | app/calendar.tsx:21 | for a stats key, the date is the key with its `stats-` prefix removed |
| `Calendar.CollectStaysNone` | app/calendar.tsx:20 | a key that fails to parse aborts the whole listing |
| `Calendar.CollectNoneIff` | app/calendar.tsx:17-20 | the listing aborts exactly when some stats key holds a non-empty string that does not parse |
| `Calendar.CollectLength` | app/calendar.tsx:17-29 | there are no more entries than stats keys |
| `Calendar.CollectSound` | app/calendar.tsx:17-29 | every entry's date names a listed key whose record the entry shows, with missing fields as 0 |
| `Calendar.CollectComplete` | app/calendar.tsx:18-28 | every listed key whose record parses has its entry |
| `Calendar.CollectDistinctDates` | app/calendar.tsx:21 | entries of distinct keys have pairwise distinct dates |
| `Calendar.Insert` | app/calendar.tsx:31 | inserting into a newest-first list keeps it newest first and adds exactly the one entry |
| `Calendar.SortDesc` | app/calendar.tsx:31 | the sorted list is newest first and a permutation of the collected entries |
| `Calendar.SortDescDistinct` | app/calendar.tsx:31 | sorting keeps the dates pairwise distinct |
| `Calendar.LoadEntries` | app/calendar.tsx:11-36 | on a parse failure the shown list is kept; otherwise the list is newest first, has distinct dates and no more entries than stats keys, every entry shows a stored record, and every stored record has its entry |
| `Calendar.SavedDayListed` | app/calendar.tsx:17-31 | a record saved by the Today screen shows up in the history under the Today screen's date with the same three numbers |

## Left out

- Screen layout, `StatCard`, styles, `Dimensions`, keyboard handling and app/_layout.tsx (tab navigation): user interface only.
- app/debug.tsx (a developer tool: random date duplication, alerts, wiping keys) is not part of this model.
- The confirmation dialogs (`Alert.alert`): reset is modelled as its confirmed branch.
- The storage engine and `async`/`await`: every call is one sequential step on the map and always succeeds. The `catch` blocks for failed store calls only log, and they are not modelled.
- The debounce timer (app/index.tsx:35-40, 121-131): only the save's effect is modelled, as `Save`. Timing and coalescing are not. When some counter was non-zero before a reset, zeroing it is a state change, and it schedules one more save. That save writes `{0, 0, 0}` back under today's key 500 ms later. When all three were already 0, React does not re-render, and no save follows. `Reset` models the handler body alone.
- `Date`, `toLocaleString` and the composition of the long-form date (app/index.tsx:53, 70-76): the mount date is the parameter `today`, and the date of a later render is the `date` argument of `Save` and `Reset`. The clock itself, and when it passes midnight, is not modelled. `formatDaySuffix` is modelled.
- `toISOString` in `formatDate` (app/aggregates.tsx:23-27): the dates are the parameter `dateOf`. Its use of UTC is not modelled: late in the day west of Greenwich, offset 0 is already tomorrow's date.
- `new Date(date).getTime()` (app/calendar.tsx:31): the date order is the integer parameter `time`. A date string the engine cannot parse gives NaN, and NaN comparisons are not modelled. `Calendar.SortDesc` states ordering and permutation, not stability.
- `JSON.parse`/`JSON.stringify`: a stored string is either a serialized object with numeric fields or a string that does not parse. Strings that parse to a bare JSON number, string, array or `null` are not modelled, and neither are fields holding non-numbers.
- `parseFloat` of the typed text: a field is `Option<real>`, with `None` for NaN, which covers the empty field.
- Floating point: numbers are exact reals. The display rounding (`Math.round`, `toFixed(1)`, app/aggregates.tsx:54-56) is not modelled; averages are exact quotients.
- The race at mount between `initData` and the first debounced save of the initial zeros is not modelled (timing).
