# castle-postdate core, modelled in Dafny

castle-postdate is a web application for couples. It offers a shared calendar of "D-day" events, a menstrual-cycle tracker, daily mood check-ins and partner connections. A Next.js frontend talks to a Go (gin) backend that stores everything in Firestore. This project models the parts with real logic, and proves what they promise:

- **Cycle prediction** on the tracker page (`cycle.dfy`, module `CyclePrediction`). It covers:
  - the `YYYY-MM-DD` date keys;
  - grouping logged period days into periods (a gap of at most 3 days);
  - the mean start-to-start cycle length, with the partner copy's fixed 28 and the user copy's setting-or-28 fallback;
  - cycle day with JavaScript's truncated `%`;
  - next period, fertile window and ovulation;
  - the predicted-period and fertility day sets, built by loops as the page builds them.
- **Today's summary** (`summary.dfy`, `TodaysSummary`): period membership, the day of the current period, the suggestion list, the closest event, the pregnancy-chance bands and the "in N days" text.
- **Period days and settings**:
  - the React hook over a store class (`periodrecords.dfy`, `periodhook.dfy`);
  - the Go handlers with upsert, delete, defaults and bounds (`periodstore.dfy`);
  - the settings form with its validation and input state (`settingsform.dfy`).
- **Calendar layout**:
  - the greedy in-place row assignment of multi-day events, the day filter with annual events, the rendered rows and event positions (`ddays.dfy`);
  - the month grid and navigation (`calendar.dfy`);
  - D-day labels and group colours (`utils.dfy`);
  - the week-span clamping of the calendar bar (`indicator.dfy`);
  - the 77-day pager of the day-button row (`daybuttons.dfy`).
- **Backend handlers** over in-memory collections:
  - events: month view, de-duplication, validation, protected fields, sharing with the partner and the upload size limit (`eventstore.dfy`);
  - the connection state machine, pending → active → removed, with the `connectedUsers` bookkeeping on both partners' events (`connections.dfy`);
  - daily check-ins (`checkins.dfy`);
  - the helpers of `go/util/util.go` (`goutil.dfy`).
- **Library semantics** the code relies on, written out:
  - JavaScript `new Date(y, m, d)` roll-over and `getDay`, Go `time.Date`, and a proved Gregorian day-number conversion (`dates.dfy`);
  - decimal rendering, `padStart`, `split`, JavaScript `parseInt`/`Number`, Go `strconv.Atoi`, `TrimSpace`/`ToLower`, and the code-unit order of Firestore document ids (`text.dfy`);
  - shared `Option` and HTTP reply types (`optional.dfy`, `http.dfy`).

Modelling conventions:

- **Dates** are integer day numbers, with 1970-01-01 = 0. "Now" is a parameter `nowMs` in local milliseconds, so today is `nowMs / DayMs`.
- **Handlers** are methods of a store class: `EventStore`, `ConnectionStore`, `PeriodStore`, `CheckinStore`. Each store holds its Firestore collections as fields of type `seq` or `map`.
  - Each handler is proved against a function that gives its outcome. The store invariant `Valid()` is preserved.
  - Lemmas about those functions state the handler's promises.
- **Replies** are `Ok`, `Fail(status, message)` or `Panicked`. `Panicked` is a run-time panic, which gin's recovery middleware answers with 500.
- **Firestore query order**: an equality query's first document is the one with the least document id in code-unit order. Exceptions are the check-in, period-day and event collections, where sequence order is used.
- **Two cycle copies**: the tracker page holds two copies of the cycle logic, one for the partner and one for the user. The model keeps both, with their differences. The partner copy falls back to 28 and never computes a period end.

## Model

| member | source | states |
|---|---|---|
| CyclePrediction.DigitPiecesFields | dump/v2/frontend/app/tracker/page.tsx:37-40 | splitting a key of three digit runs joined by '-' and mapping `Number` over the pieces yields the three values |
| CyclePrediction.ParseOfFields | dump/v2/frontend/app/tracker/page.tsx:37-40 | `parseDateKey` builds the date `new Date(year, month - 1, day)` from the three numbers of the key |
| CyclePrediction.ValidKeyFields | dump/v2/frontend/app/tracker/page.tsx:29-40 | a valid zero-padded key reads as its year, month and day, and writing those out again gives the same key |
| CyclePrediction.FormatCivilFields | dump/v2/frontend/app/tracker/page.tsx:29-40 | a formatted date reads back as its own year, month and day |
| CyclePrediction.FormatParseDateKey | dump/v2/frontend/app/tracker/page.tsx:29-40 | `formatDateKey(parseDateKey(k)) == k` for every valid zero-padded `YYYY-MM-DD` key |
| CyclePrediction.KeyRoundTrip | dump/v2/frontend/app/tracker/page.tsx:29-40 | the same round trip for a key known to describe a given calendar date |
| CyclePrediction.FormatMadeDay | dump/v2/frontend/app/tracker/page.tsx:29-33 | formatting the day that `new Date(y, m - 1, d)` makes from a valid date prints that date |
| CyclePrediction.ParseFormatDateKey | dump/v2/frontend/app/tracker/page.tsx:29-40 | the other direction: parsing the key of a date (year 100 or later) gives the date back |
| CyclePrediction.FormatCivilInjective | dump/v2/frontend/app/tracker/page.tsx:29-33 | dates with valid months and days never share a key |
| CyclePrediction.FormatDateKeyInjective | dump/v2/frontend/app/tracker/page.tsx:29-33 | two different days always have different keys, so a set of keys counts days |
| CyclePrediction.WholeDays | dump/v2/frontend/app/tracker/page.tsx:308-311 | the millisecond difference of two midnights divided by a day's length is their difference in days |
| CyclePrediction.DaysUntilIsDayDifference | dump/v2/frontend/app/tracker/page.tsx:380-386 | the countdown `ceil((target - now) / day)` to a midnight is the target day minus today |
| CyclePrediction.DaysSinceCountsToday | dump/v2/frontend/app/tracker/page.tsx:392-395 | `ceil((now - start) / day)` is the day difference, plus one once the clock has passed midnight |
| CyclePrediction.DaysSincePositive | dump/v2/frontend/app/tracker/page.tsx:392-395 | from the start day on, after midnight, at least one day has elapsed |
| CyclePrediction.MidnightDifference | dump/v2/frontend/app/tracker/page.tsx:308-311 | the grouping's rounded-up difference of two period days is exactly their distance in days |
| CyclePrediction.RoundDivBounds | dump/v2/frontend/app/tracker/page.tsx:342-344 | `Math.round` of a quotient is within one half of the exact quotient, halves rounding up |
| CyclePrediction.CycleDayInRange | dump/v2/frontend/app/tracker/page.tsx:389-399 | for `daysSince >= 1` the cycle day (`daysSince % len`, 0 replaced by `len`) is `(daysSince - 1) % len + 1`, in `[1, len]` |
| CyclePrediction.CycleDayBeforeStart | dump/v2/frontend/app/tracker/page.tsx:396-397 | before the start, JavaScript's truncating `%` makes the cycle day non-positive, or the full length |
| CyclePrediction.Insert | dump/v2/frontend/app/tracker/page.tsx:294-296 | inserting a day into sorted days keeps them sorted and adds exactly that day |
| CyclePrediction.SortDays | dump/v2/frontend/app/tracker/page.tsx:294-296 | the comparator sort returns the days ascending, as a permutation of the input |
| CyclePrediction.ParsedDays | dump/v2/frontend/app/tracker/page.tsx:294-295 | parsing the keys yields at most one day per key |
| CyclePrediction.ParsedDaysMembers | dump/v2/frontend/app/tracker/page.tsx:294-295 | a day is parsed exactly when some key names it, and when every key is a date none is dropped |
| CyclePrediction.Groups | dump/v2/frontend/app/tracker/page.tsx:299-325 | grouping yields non-empty periods, and at least one exactly when there are days |
| CyclePrediction.GroupsFlatten | dump/v2/frontend/app/tracker/page.tsx:299-325 | the concatenation of the periods is the sorted input |
| CyclePrediction.GroupsGaps | dump/v2/frontend/app/tracker/page.tsx:299-325 | inside a period consecutive days are at most 3 days apart; between periods the last and first days are more than 3 apart |
| CyclePrediction.GroupsTight | dump/v2/frontend/app/tracker/page.tsx:313-314 | consecutive days inside a period differ by at most 3 days |
| CyclePrediction.GroupsSeparated | dump/v2/frontend/app/tracker/page.tsx:315-320 | a new period starts more than 3 days after the previous one ends |
| CyclePrediction.GroupsSorted | dump/v2/frontend/app/tracker/page.tsx:299-325 | on sorted input every period is sorted |
| CyclePrediction.GroupPeriods | dump/v2/frontend/app/tracker/page.tsx:299-325 | the page's grouping loop builds exactly the periods that `Groups` describes |
| CyclePrediction.Starts | dump/v2/frontend/app/tracker/page.tsx:328 | `periodStartDates` has one entry per period: its first day |
| CyclePrediction.AverageCycleLength | dump/v2/frontend/app/tracker/page.tsx:331-345 | the averaging loop gives the fallback for fewer than 2 starts, otherwise the rounded mean of the start-to-start gaps |
| CyclePrediction.SpanBounds | dump/v2/frontend/app/tracker/page.tsx:332-341 | the sum of the gaps lies between `(n - 1)` times the smallest and the largest gap |
| CyclePrediction.MeanBetweenGaps | dump/v2/frontend/app/tracker/page.tsx:331-345 | the average cycle length lies between the shortest and the longest start-to-start gap |
| CyclePrediction.StartsSeparated | dump/v2/frontend/app/tracker/page.tsx:299-345 | period starts are more than 3 days apart, so a computed cycle length is at least 4 |
| CyclePrediction.PeriodGroups | dump/v2/frontend/app/tracker/page.tsx:294-325 | the periods of a key set are non-empty, tight, separated, and concatenate to the sorted parsed days |
| CyclePrediction.PeriodGroupsMembers | dump/v2/frontend/app/tracker/page.tsx:294-325 | a day lies in one of the periods exactly when some logged key names it |
| CyclePrediction.CycleLengthOf | dump/v2/frontend/app/tracker/page.tsx:331-345 | fewer than 2 periods give the fallback; otherwise the length is `round((lastStart - firstStart) / (n - 1))` and at least 4 |
| CyclePrediction.Predict | dump/v2/frontend/app/tracker/page.tsx:285-432 | the user's cycle data; its cycle length is never 0 |
| CyclePrediction.OrDefault | dump/v2/frontend/app/tracker/page.tsx:331 | `x || d` on an optional number yields `x` unless it is missing or 0 |
| CyclePrediction.PartnerCycleData | dump/v2/frontend/app/tracker/page.tsx:110-246 | partner data is `null` exactly for an empty key set, and it never has a period end |
| CyclePrediction.PredictWithoutData | dump/v2/frontend/app/tracker/page.tsx:286-292 | with no parsable period day there is no start and every derived value is `null`; the length is the fallback |
| CyclePrediction.PredictMostRecentPeriod | dump/v2/frontend/app/tracker/page.tsx:347-354 | with data, the most recent start and end are the first and last day of the last period, with start <= end |
| CyclePrediction.LastGroupFacts | dump/v2/frontend/app/tracker/page.tsx:347-354 | the last period starts no later than it ends and after every earlier period has ended |
| CyclePrediction.DeriveOffsets | dump/v2/frontend/app/tracker/page.tsx:369-432 | next period = start + cycle length; fertile window = start + 11 to start + 17; ovulation = start + 14; the countdowns are day differences from today; the cycle day is in range once the start has passed |
| CyclePrediction.DeriveWithoutStart | dump/v2/frontend/app/tracker/page.tsx:366-432 | without a start, every derived date and countdown is `null` |
| CyclePrediction.UserCycleLength | dump/v2/frontend/app/tracker/page.tsx:285-345 | the user's cycle length is the setting (28 when unset or 0) unless at least two periods are logged, when it is the mean |
| CyclePrediction.MeanOfStarts | dump/v2/frontend/app/tracker/page.tsx:331-345 | the rounded mean of the gaps equals `round((lastStart - firstStart) / (n - 1))` |
| CyclePrediction.DeriveWithoutEnd | dump/v2/frontend/app/tracker/page.tsx:169-245 | dropping the period end changes no other derived value |
| CyclePrediction.PartnerCycleLength | dump/v2/frontend/app/tracker/page.tsx:152-167 | the partner's cycle length falls back to 28 whatever the user's setting; apart from the end it matches the user's computation with fallback 28 |
| CyclePrediction.WindowMembers | dump/v2/frontend/app/tracker/page.tsx:457-465 | a key is in a window of days iff it is the key of one of the window's days |
| CyclePrediction.CycleStartIs | dump/v2/frontend/app/tracker/page.tsx:470-489 | after `k` steps of `setDate(+cycleLength)` the period start is `start + k * cycleLength` |
| CyclePrediction.CycleDay0Next | dump/v2/frontend/app/tracker/page.tsx:470-489 | day `d` of cycle `k` counted from the next start is day `d` of cycle `k + 1` |
| CyclePrediction.CycleWindowsMembers | dump/v2/frontend/app/tracker/page.tsx:478-489 | a key is in the future windows iff it is the key of day `d` in `[lo, hi)` of some cycle `k < n` |
| CyclePrediction.ConfirmedCount | dump/v2/frontend/app/tracker/page.tsx:443-452 | the number of logged days in the current period window is at most the period length |
| CyclePrediction.FullWindowAllLogged | dump/v2/frontend/app/tracker/page.tsx:456 | when every day of the window is logged, there is nothing left to predict in it |
| CyclePrediction.AddDayKeys | dump/v2/frontend/app/tracker/page.tsx:480-484 | the inner loop adds exactly the keys of days `start + lo` up to `start + hi` |
| CyclePrediction.PredictCurrentPeriod | dump/v2/frontend/app/tracker/page.tsx:441-467 | the current-period block adds the unlogged days of the window, but only when fewer than periodLength days are logged |
| CyclePrediction.GeneratePredictedPeriodDays | dump/v2/frontend/app/tracker/page.tsx:435-491 | the loops build exactly the specified predicted set, empty without a start |
| CyclePrediction.GenerateFertilityWindowDays | dump/v2/frontend/app/tracker/page.tsx:494-529 | the loops build exactly the specified fertile set, empty without a start |
| CyclePrediction.PredictedDaysMembers | dump/v2/frontend/app/tracker/page.tsx:435-491 | a key is predicted iff it is an unlogged day `0..periodLength-1` of the current period (when that period is incomplete) or one of those days of cycles 1 to 3 |
| CyclePrediction.UnloggedMembers | dump/v2/frontend/app/tracker/page.tsx:441-467 | the current-period prediction is exactly the window's unlogged keys, or nothing when the window is fully logged |
| CyclePrediction.FutureMembers | dump/v2/frontend/app/tracker/page.tsx:470-489 | the future prediction is exactly days `0..periodLength-1` of cycles 1 to 3 |
| CyclePrediction.FertilityDaysMembers | dump/v2/frontend/app/tracker/page.tsx:494-529 | the fertile set is exactly days 11 to 17 of cycles 0 to 3; with no start both generated sets are empty |
| TodaysSummary.InPeriodOfRecords | dump/v2/frontend/components/tracker/TodaysSummary.tsx:33-35 | with the tracker's period-day set and no flag, today is in a period iff some record for today's key is marked as a period day |
| TodaysSummary.FirstDayIsStartDay | dump/v2/frontend/components/tracker/TodaysSummary.tsx:36-39 | without the caller's flag, today is the first day iff the most recent period started today (keys are compared, and keys identify days) |
| TodaysSummary.CurrentPeriodDayCounts | dump/v2/frontend/components/tracker/TodaysSummary.tsx:78-86 | 0 outside a period or without a start; otherwise the floored day difference plus one, so the start day is day 1 |
| TodaysSummary.GenerateSuggestions | dump/v2/frontend/components/tracker/TodaysSummary.tsx:89-172 | the push-by-push method yields the specified list: the fixed messages without data, else the cycle, symptom and mood messages (or the defaults) cut to three |
| TodaysSummary.PushCycleSuggestions | dump/v2/frontend/components/tracker/TodaysSummary.tsx:111-138 | the cycle-day block appends exactly the pair for the day's band |
| TodaysSummary.PushLogSuggestions | dump/v2/frontend/components/tracker/TodaysSummary.tsx:140-163 | the symptom and mood blocks append the messages for cramps, fatigue, bloating, anxious and irritable, in that order |
| TodaysSummary.SuggestionsWithoutData | dump/v2/frontend/components/tracker/TodaysSummary.tsx:92-108 | without period data the result is exactly the two fixed messages, the partner variant or the own one |
| TodaysSummary.SuggestionsBounds | dump/v2/frontend/components/tracker/TodaysSummary.tsx:165-171 | with period data the list is never empty and has at most 3 entries |
| TodaysSummary.CycleBands | dump/v2/frontend/components/tracker/TodaysSummary.tsx:112-138 | days 6 to 10 add no cycle message; every other non-zero day adds one pair (bands <= 5, 11-17, 18-25, >= 26) |
| TodaysSummary.CycleMessagesFirst | dump/v2/frontend/components/tracker/TodaysSummary.tsx:111-171 | a cycle-day pair, when there is one, heads the list |
| TodaysSummary.DefaultSuggestions | dump/v2/frontend/components/tracker/TodaysSummary.tsx:165-169 | the two default messages appear exactly when no cycle, symptom or mood message was produced |
| TodaysSummary.ClosestIndex | dump/v2/frontend/components/tracker/TodaysSummary.tsx:218-220 | the `reduce` with a strict `<` ends on the first event with the fewest days |
| TodaysSummary.ClosestEventChoice | dump/v2/frontend/components/tracker/TodaysSummary.tsx:193-220 | outside a period: no event iff neither countdown exists; otherwise the nearer of period and ovulation, a tie going to the period |
| TodaysSummary.ClosestEventInPeriod | dump/v2/frontend/components/tracker/TodaysSummary.tsx:175-191 | without period data no event; in a period the event is `current_period` with 0 days |
| TodaysSummary.PregnancyChance | dump/v2/frontend/components/tracker/TodaysSummary.tsx:224-264 | "Very Low" iff in period; "High" iff outside a period with days until ovulation in [-3, 3]; post-ovulation "Low" iff below -3; the pre-ovulation "Low" otherwise |
| TodaysSummary.LowChance | dump/v2/frontend/components/tracker/TodaysSummary.tsx:224-264 | the level reads "Low" exactly outside a period and outside the three days around ovulation |
| TodaysSummary.AheadTextShape | dump/v2/frontend/components/tracker/TodaysSummary.tsx:272-274 | a positive distance reads "in N day(s)" |
| TodaysSummary.AgoTextShape | dump/v2/frontend/components/tracker/TodaysSummary.tsx:278-279 | a past distance reads "N day(s) ago" |
| TodaysSummary.DaysAwayText | dump/v2/frontend/components/tracker/TodaysSummary.tsx:271-280 | "today" iff 0; starts with "in " iff positive; ends with " ago" iff negative |
| TodaysSummary.DaysAwayTextCount | dump/v2/frontend/components/tracker/TodaysSummary.tsx:271-280 | the number in the text reads back as the absolute distance |
| TodaysSummary.DaysAwayTextInjective | dump/v2/frontend/components/tracker/TodaysSummary.tsx:271-280 | different distances give different texts |
| TodaysSummary.DaysAwayPlural | dump/v2/frontend/components/tracker/TodaysSummary.tsx:271-280 | "days" is plural exactly when the distance is not one day |
| PeriodRecords.Distinct | dump/v2/frontend/lib/hooks/usePeriod.tsx:55-57 | `new Set(...)` holds each date once, and exactly the dates of its input |
| PeriodRecords.PeriodDates | dump/v2/frontend/lib/hooks/usePeriod.tsx:56 | the filtered and mapped list is exactly the dates of the records with `isPeriod` true |
| PeriodRecords.PeriodDayKeys | dump/v2/frontend/lib/hooks/usePeriod.tsx:54-58 | `periodDaysSet` is exactly the set of dates of records with `isPeriod` true, each once |
| PeriodRecords.PeriodDaySet | dump/v2/frontend/lib/hooks/usePeriod.tsx:54-58 | the same set as a membership test |
| PeriodRecords.FindByDate | dump/v2/frontend/lib/hooks/usePeriod.tsx:114 | `find` returns the first record with the date, or nothing when no record has it |
| PeriodHook.AddRequest | dump/v2/frontend/lib/hooks/usePeriod.tsx:66-79 | `addPeriodDay` sends the date and flag with empty lists, crampIntensity 0 and notes "" |
| PeriodHook.GetLogForDate | dump/v2/frontend/lib/hooks/usePeriod.tsx:190-195 | the first record with that date, or null exactly when no record has it |
| PeriodHook.ToggleFlips | dump/v2/frontend/lib/hooks/usePeriod.tsx:112-129 | toggling a well-shaped date flips whether it is a period day and keeps one record per date |
| PeriodHook.ToggleOthers | dump/v2/frontend/lib/hooks/usePeriod.tsx:112-129 | toggling one date leaves every other date's record as it was |
| PeriodHook.ToggleClearsLog | dump/v2/frontend/lib/hooks/usePeriod.tsx:119-122 | toggling a logged non-period day makes it a period day and, because `addPeriodDay` sends an empty log, clears its symptoms, mood, activities, notes and cramps |
| PeriodHook.UpdateKeepsFlag | dump/v2/frontend/lib/hooks/usePeriod.tsx:145-155 | after `updatePeriodDay` the date's record holds the six new log fields and keeps its period flag (false when there was no record) |
| PeriodHook.AddPeriodDay | dump/v2/frontend/lib/hooks/usePeriod.tsx:66-92 | a create request with the empty log, applied to the store; a badly shaped date is rejected with nothing changed |
| PeriodHook.TogglePeriodDay | dump/v2/frontend/lib/hooks/usePeriod.tsx:112-129 | a period day is deleted, anything else is added as one; the store stays valid |
| PeriodHook.UpdatePeriodDay | dump/v2/frontend/lib/hooks/usePeriod.tsx:132-169 | sends the new log with the record's current flag; a badly shaped date is rejected with nothing changed |
| PeriodHandlers.UpsertUnique | dump/v2/go/handlers/periods.go:215-289 | updating the existing record or adding one keeps one record per date |
| PeriodHandlers.UpsertLookup | dump/v2/go/handlers/periods.go:215-289 | after a create the date's record holds the request and the new updatedAt; an existing record keeps its id, position and createdAt; otherwise a new record with createdAt now is appended; other records are untouched |
| PeriodHandlers.FindFirst | dump/v2/go/handlers/periods.go:215-217 | the equality query's first document is the first record with the date |
| PeriodHandlers.RemoveFirstEffect | dump/v2/go/handlers/periods.go:309-329 | deleting a date leaves no record of it, removes exactly one record when there was one, and keeps all other records |
| PeriodHandlers.RemoveFirstOther | dump/v2/go/handlers/periods.go:309-329 | deleting one date does not change what another date finds |
| PeriodHandlers.UpsertOther | dump/v2/go/handlers/periods.go:224-289 | creating one date does not change what another date finds |
| PeriodHandlers.CurrentSettings | dump/v2/go/handlers/periods.go:332-372 | with no settings stored, cycleLength 28 and periodLength 5; otherwise the first document's values |
| PeriodHandlers.SettingsError | dump/v2/go/handlers/periods.go:392-399 | an error iff cycleLength is outside [20, 45] or periodLength outside [1, 10], the cycle check first |
| PeriodHandlers.SaveThenRead | dump/v2/go/handlers/periods.go:402-433 | after saving, the settings read back as the saved lengths; only the first document changes, or one is added |
| PeriodHandlers.SettingsBoundsKept | dump/v2/go/handlers/periods.go:392-433 | lengths that pass the bounds are stored and read back within them |
| PeriodHandlers.PeriodStore.constructor | dump/v2/go/handlers/periods.go:193-289 | an empty store of period days and settings |
| PeriodHandlers.PeriodStore.CreatePeriodDay | dump/v2/go/handlers/periods.go:193-289 | a date that is not length 10 with '-' at indexes 4 and 7 is a 400 with no write; otherwise the upsert, with a fresh id only for a new record |
| PeriodHandlers.PeriodStore.DeletePeriodDay | dump/v2/go/handlers/periods.go:292-329 | empty date: 400; no record: 404 "Period day not found"; otherwise the first record of the date is removed |
| PeriodHandlers.PeriodStore.GetCycleSettings | dump/v2/go/handlers/periods.go:332-372 | returns the specified current settings, the defaults when none are stored |
| PeriodHandlers.PeriodStore.UpdateCycleSettings | dump/v2/go/handlers/periods.go:375-440 | out-of-bounds lengths are a 400 before any write; otherwise the first settings document is updated or one is created |
| DayButtonRow.DaysPerPage | dump/v2/frontend/components/tracker/DayButtonRow.tsx:86-91 | 7 iff there is a window narrower than 768, otherwise 11 (also during server rendering) |
| DayButtonRow.AllDates | dump/v2/frontend/components/tracker/DayButtonRow.tsx:114-127 | 77 consecutive days from today - 38 to today + 38, with today at index 38 |
| DayButtonRow.Slice | dump/v2/frontend/components/tracker/DayButtonRow.tsx:137 | `slice` with clamped bounds returns the elements from `start` on, at most `end - start` of them |
| DayButtonRow.PageDates | dump/v2/frontend/components/tracker/DayButtonRow.tsx:135-138 | page p shows `allDates[p*d ..]`, at most d entries |
| DayButtonRow.InitialPageHoldsToday | dump/v2/frontend/components/tracker/DayButtonRow.tsx:129-138 | the initial page `floor(38 / d)` contains today's index 38 and lies within the pages `paginate` accepts |
| DayButtonRow.PagesAreFull | dump/v2/frontend/components/tracker/DayButtonRow.tsx:135-150 | for both page sizes every reachable page holds exactly d days |
| DayButtonRow.DayPager.constructor | dump/v2/frontend/components/tracker/DayButtonRow.tsx:93 | the first render shows page 0 with 11 days per page |
| DayButtonRow.DayPager.Mount | dump/v2/frontend/components/tracker/DayButtonRow.tsx:96-133 | after the first render the page size follows the width and the page is the one holding today |
| DayButtonRow.DayPager.Resize | dump/v2/frontend/components/tracker/DayButtonRow.tsx:102-133 | a resize sets the page size from the width; the page moves to today's page only when the size changed, otherwise it stays where the user paged to |
| DayButtonRow.DayPager.Paginate | dump/v2/frontend/components/tracker/DayButtonRow.tsx:142-150 | the page and direction change only when the target index lies in `[0, floor(77/d) - 1]`; otherwise nothing changes |
| DayButtonRow.HandlePeriodToggle | dump/v2/frontend/components/tracker/DayButtonRow.tsx:52-58 | a day later than today, compared at midnight, changes nothing; any other day toggles its key in the period store |
| CycleSettingsForm.CycleError | dump/v2/frontend/components/tracker/CycleSettingsForm.tsx:38-45 | a cycle-length error iff `parseInt` gives NaN, below 20 or above 45 |
| CycleSettingsForm.PeriodError | dump/v2/frontend/components/tracker/CycleSettingsForm.tsx:47-54 | a period-length error iff `parseInt` gives NaN, below 1 or above 10 |
| CycleSettingsForm.SettingsForm.constructor | dump/v2/frontend/components/tracker/CycleSettingsForm.tsx:23-30 | the form opens with the current settings written as text and no errors |
| CycleSettingsForm.SettingsForm.ValidateForm | dump/v2/frontend/components/tracker/CycleSettingsForm.tsx:32-58 | sets both errors from the texts; the form is valid iff the error map is empty |
| CycleSettingsForm.SettingsForm.HandleSubmit | dump/v2/frontend/components/tracker/CycleSettingsForm.tsx:60-75 | `onSave` gets both parsed integers exactly when the form is valid |
| CycleSettingsForm.SettingsForm.HandleInputChange | dump/v2/frontend/components/tracker/CycleSettingsForm.tsx:77-82 | editing a field replaces only that field's text and clears only that field's error |
| CycleSettingsForm.SubmittedSettingsAccepted | dump/v2/frontend/components/tracker/CycleSettingsForm.tsx:60-75 | whatever the form submits passes the backend's bounds check of `UpdateCycleSettings` |
| CycleSettingsForm.FormAgreesWithBackend | dump/v2/frontend/components/tracker/CycleSettingsForm.tsx:32-58 | for texts that are plain numbers, the form accepts exactly the lengths the backend accepts |
| CycleSettingsForm.InitialTextsParse | dump/v2/frontend/components/tracker/CycleSettingsForm.tsx:23-26 | the initial texts parse back to the settings they were written from |
| DDayIndicator.WeekColumn | dump/v2/frontend/components/calendar/DDayIndicator.tsx:69 | JavaScript's `%` keeps the sign of the dividend; it is 0 exactly at multiples of 7 |
| DDayIndicator.BorderStyles | dump/v2/frontend/components/calendar/DDayIndicator.tsx:54-66 | the style is chosen by position: start, middle and end get their own, anything else the single style |
| DDayIndicator.BorderStylesInjective | dump/v2/frontend/components/calendar/DDayIndicator.tsx:54-66 | different positions get different borders |
| DDayIndicator.ShowTitle | dump/v2/frontend/components/calendar/DDayIndicator.tsx:68-73 | the title shows iff the position is start or single, or `dayIndex % 7 == 0` |
| DDayIndicator.CellDate | dump/v2/frontend/components/calendar/DDayIndicator.tsx:85-94 | the cell date is the first of the month, minus its weekday, plus dayIndex |
| DDayIndicator.GridStartsOnSunday | dump/v2/frontend/components/calendar/DDayIndicator.tsx:85-91 | the grid starts on the Sunday on or before the first of the viewed month |
| DDayIndicator.FirstOfViewedMonth | dump/v2/frontend/components/calendar/DDayIndicator.tsx:85-89 | `new Date(year, month, 1)` is the first day of the viewed month |
| DDayIndicator.WeekdayAfterSunday | dump/v2/frontend/components/calendar/DDayIndicator.tsx:90-94 | the cell `dayIndex` days after the grid start falls on weekday `dayIndex % 7` |
| DDayIndicator.EventWeekSpan | dump/v2/frontend/components/calendar/DDayIndicator.tsx:75-109 | the span is 1 when the title is hidden or dayIndex, the month or the date is missing; it is always at least 1 and at most `7 - dayIndex % 7` |
| DDayIndicator.SpanOnCell | dump/v2/frontend/components/calendar/DDayIndicator.tsx:97-108 | otherwise it is `max(1, min(7 - dayIndex % 7, daysLeftInEvent))`, with the days left counted from the cell to the end date (or the date) |
| DDayIndicator.WeekSpanCoversEvent | dump/v2/frontend/components/calendar/DDayIndicator.tsx:97-108 | on a cell of the event, the bar covers only days of the event in the cell's week row, and stops at the event's last day or at the row's end |
| DDayIndicator.WeekSpanPastEvent | dump/v2/frontend/components/calendar/DDayIndicator.tsx:104-108 | a cell past the event's last day gets the one-cell bar |
| Calendar.GetDaysInMonth | dump/v2/frontend/lib/hooks/useCalendar.tsx:11-13 | the day of month of `new Date(year, month + 1, 0)` is between 1 and 31 |
| Calendar.DaysInMonthGregorian | dump/v2/frontend/lib/hooks/useCalendar.tsx:11-13 | it is the Gregorian length of the month; February has 29 days exactly in leap years |
| Calendar.GetFirstDayOfMonth | dump/v2/frontend/lib/hooks/useCalendar.tsx:16-18 | the weekday, 0 = Sunday, of the first of the month |
| Calendar.IsTodayMeans | dump/v2/frontend/lib/hooks/useCalendar.tsx:69-77 | a cell is today iff it has a day number and that day of the viewed month is today |
| Calendar.IsSelectedMeans | dump/v2/frontend/lib/hooks/useCalendar.tsx:80-87 | a cell is selected iff it has a day number and that day of the viewed month is the selected date |
| Calendar.SameDayOfViewedMonth | dump/v2/frontend/lib/hooks/useCalendar.tsx:72-76 | comparing day, month and year with a date is comparing the dates |
| Calendar.MonthDataMatchesGrid | dump/v2/frontend/lib/hooks/useCalendar.tsx:22-39 | the numbered cell for day d shows the date that the event-bar grid places at that cell |
| Calendar.CalendarView.constructor | dump/v2/frontend/lib/hooks/useCalendar.tsx:6-8 | both the viewed and the selected date start as today |
| Calendar.CalendarView.GenerateMonthData | dump/v2/frontend/lib/hooks/useCalendar.tsx:22-39 | one null per weekday before the first, then 1..daysInMonth in order, so the length is that weekday plus the month's length |
| Calendar.CalendarView.GoToNextMonth | dump/v2/frontend/lib/hooks/useCalendar.tsx:42-49 | day 1, then month + 1; the selected date stays |
| Calendar.CalendarView.GoToPrevMonth | dump/v2/frontend/lib/hooks/useCalendar.tsx:52-59 | day 1, then month - 1; the selected date stays |
| Calendar.CalendarView.GoToToday | dump/v2/frontend/lib/hooks/useCalendar.tsx:62-66 | views and selects today |
| Calendar.CalendarView.SelectDate | dump/v2/frontend/lib/hooks/useCalendar.tsx:90-94 | selects that day of the viewed month (rolling over) and keeps the view |
| Calendar.FirstOfMonthOf | dump/v2/frontend/lib/hooks/useCalendar.tsx:45 | `setDate(1)` moves to the first of the same month and year |
| Calendar.ShiftFirst | dump/v2/frontend/lib/hooks/useCalendar.tsx:46 | `setMonth` on a first of month gives the first of the shifted month |
| Calendar.NextMonthCivil | dump/v2/frontend/lib/hooks/useCalendar.tsx:42-49 | from month m of year y the view moves to the first of m + 1, or of January of y + 1 |
| Calendar.PrevMonthCivil | dump/v2/frontend/lib/hooks/useCalendar.tsx:52-59 | from month m of year y the view moves to the first of m - 1, or of December of y - 1 |
| Calendar.NextMonthSteps | dump/v2/frontend/lib/hooks/useCalendar.tsx:42-49 | the result is day 1 exactly one month later, and December rolls into the next year |
| Calendar.PrevMonthSteps | dump/v2/frontend/lib/hooks/useCalendar.tsx:52-59 | the result is day 1 exactly one month earlier, and January rolls back into the previous year |
| Calendar.SelectedAfterSelect | dump/v2/frontend/lib/hooks/useCalendar.tsx:80-94 | after selecting a day, exactly that day's cell is selected |
| Utils.FindGroup | dump/v2/frontend/lib/utils.ts:25 | `find` yields the first entry with the value, and nothing iff no entry has it |
| Utils.SelectGroupsDistinct | dump/v2/frontend/lib/constants/calendar.ts:1-57 | the group table has distinct values and distinct colours |
| Utils.GroupColors | dump/v2/frontend/lib/utils.ts:21-35 | both colours are "" iff the group is empty or unknown, and otherwise the table entry's color and borderColor |
| Utils.ColorIdentifiesGroup | dump/v2/frontend/lib/utils.ts:21-27 | a non-empty colour belongs to exactly one group |
| Utils.DDayLabelInjective | dump/v2/frontend/lib/utils.ts:46-48 | different day counts give different labels |
| Utils.CalculateDDay | dump/v2/frontend/lib/utils.ts:37-49 | "Today" for the same calendar day, "D-n" for a target n days ahead, "D+n" for one n days past |
| Utils.DiffDays | dump/v2/frontend/lib/utils.ts:38-44 | the floored difference of the two midnights is the number of days between the dates |
| Utils.SameLabelSameDay | dump/v2/frontend/lib/utils.ts:37-49 | two targets get the same label exactly when they fall on the same day |
| DDays.ParseDateString | dump/v2/frontend/lib/hooks/useDDays.tsx:23-31 | eight-digit strings are parsed as `new Date(year, month - 1, day)` of their pieces; any other string is not modelled |
| DDays.PiecesParse | dump/v2/frontend/lib/hooks/useDDays.tsx:25-27 | `parseInt` of each substring gives the piece's value |
| DDays.FormatDateForAPI | dump/v2/frontend/lib/hooks/useDDays.tsx:34-40 | "" exactly for an undefined date, otherwise the year followed by the two-digit month and day |
| DDays.FormatParseDateString | dump/v2/frontend/lib/hooks/useDDays.tsx:23-40 | formatting a parsed valid eight-digit date gives the same string |
| DDays.ParseFormatDateString | dump/v2/frontend/lib/hooks/useDDays.tsx:23-40 | parsing the formatted date of a four-digit year gives the date back |
| DDays.CivilOfPieces | dump/v2/frontend/lib/hooks/useDDays.tsx:24-28 | an eight-digit string whose pieces are a date parses to the day `new Date` makes of it |
| DDays.InsertEvent | dump/v2/frontend/lib/hooks/useDDays.tsx:49-60 | inserting an event adds exactly that event |
| DDays.SortEvents | dump/v2/frontend/lib/hooks/useDDays.tsx:49-60 | the sort returns a permutation of the events |
| DDays.InsertSorted | dump/v2/frontend/lib/hooks/useDDays.tsx:49-60 | inserting into ordered events keeps them ordered |
| DDays.SortEventsSorted | dump/v2/frontend/lib/hooks/useDDays.tsx:49-60 | on dated events the order is by start ascending and, for equal starts, longer first |
| DDays.Taken | dump/v2/frontend/lib/hooks/useDDays.tsx:70-81 | the rows taken on some day of the event are exactly those some covered day already holds |
| DDays.MinFreeFrom | dump/v2/frontend/lib/hooks/useDDays.tsx:65-101 | the first row from r on that is not taken, every row before it being taken |
| DDays.MinFree | dump/v2/frontend/lib/hooks/useDDays.tsx:65-101 | the smallest row that is not taken |
| DDays.Mark | dump/v2/frontend/lib/hooks/useDDays.tsx:86-97 | marking adds the row on exactly the event's days and creates missing day entries |
| DDays.RowAvailable | dump/v2/frontend/lib/hooks/useDDays.tsx:67-81 | the day loop reports the row free iff no day of the event holds it |
| DDays.FindRow | dump/v2/frontend/lib/hooks/useDDays.tsx:65-101 | the `while (true)` search ends on the smallest row free on every day of the event |
| DDays.MarkRow | dump/v2/frontend/lib/hooks/useDDays.tsx:86-97 | the marking loop takes the row on every day of the event |
| DDays.CalculateEventLayout | dump/v2/frontend/lib/hooks/useDDays.tsx:43-104 | the method builds exactly the specified layout |
| DDays.LayoutInvHolds | dump/v2/frontend/lib/hooks/useDDays.tsx:62-102 | the layout after each event satisfies the placement invariant |
| DDays.DatedStep | dump/v2/frontend/lib/hooks/useDDays.tsx:62-101 | a dated event takes its row on each of its days and gets its entry |
| DDays.UndatedStep | dump/v2/frontend/lib/hooks/useDDays.tsx:63 | an undated event is skipped and changes nothing |
| DDays.RowsStable | dump/v2/frontend/lib/hooks/useDDays.tsx:62-102 | with distinct ids an event's row never changes after it is placed |
| DDays.SortDistinct | dump/v2/frontend/lib/hooks/useDDays.tsx:49 | sorting keeps ids distinct |
| DDays.InOrder | dump/v2/frontend/lib/hooks/useDDays.tsx:49 | every input event appears in the sorted order |
| DDays.LayoutSmallestFreeRow | dump/v2/frontend/lib/hooks/useDDays.tsx:65-100 | each event gets a row that no earlier overlapping event holds, and every smaller row is held by one: the smallest row free on all its days |
| DDays.NoSharedRow | dump/v2/frontend/lib/hooks/useDDays.tsx:64-101 | two dated events that share a day never get the same row |
| DDays.RowsForDatedOnly | dump/v2/frontend/lib/hooks/useDDays.tsx:62-63 | every dated event gets a row; with distinct ids no undated event does |
| DDays.DDaysOn | dump/v2/frontend/lib/hooks/useDDays.tsx:169-189 | the filter keeps exactly the events shown on the cell, in order |
| DDays.GetDDaysForDay | dump/v2/frontend/lib/hooks/useDDays.tsx:166-190 | a null or zero day gives []; otherwise the events shown on `new Date(year, month, day)` |
| DDays.ShowsOnCovers | dump/v2/frontend/lib/hooks/useDDays.tsx:186-188 | a non-annual event is listed iff start <= cell <= end, the days the layout covers |
| DDays.AnnualCell | dump/v2/frontend/lib/hooks/useDDays.tsx:180-185 | an annual event is listed iff the month matches and the day of month lies between the start's and the end's |
| DDays.PlaceAt | dump/v2/frontend/lib/hooks/useDDays.tsx:204-208 | padding with nulls up to the row, then writing the event there |
| DDays.RenderRows | dump/v2/frontend/lib/hooks/useDDays.tsx:194-213 | the loop builds exactly the specified slots |
| DDays.RenderableStep | dump/v2/frontend/lib/hooks/useDDays.tsx:201-210 | how one more event changes the slots |
| DDays.RenderableLength | dump/v2/frontend/lib/hooks/useDDays.tsx:194-213 | the slots have length max row + 1 among the day's events |
| DDays.RenderableFilled | dump/v2/frontend/lib/hooks/useDDays.tsx:194-213 | a slot is filled iff some event of the day has that row; the other slots are null |
| DDays.RenderableLastWriter | dump/v2/frontend/lib/hooks/useDDays.tsx:201-210 | a filled slot holds the last event of the day with that row |
| DDays.GetEventPosition | dump/v2/frontend/lib/hooks/useDDays.tsx:385-403 | "start" on the first day, "end" on the last, "middle" between, "single" outside or for a one-day event |
| DDays.SpanPositions | dump/v2/frontend/lib/hooks/useDDays.tsx:385-403 | along a multi-day event the positions read start, middle..., end |
| DDays.RemoveByIdCounts | dump/v2/frontend/lib/hooks/useDDays.tsx:361 | a delete removes every event with that id and keeps every other occurrence |
| DDays.RemoveByIdAppend | dump/v2/frontend/lib/hooks/useDDays.tsx:361 | the filter distributes over concatenation, so kept events stay in order |
| DDays.DDayHook.constructor | dump/v2/frontend/lib/hooks/useDDays.tsx:10-20 | no events and an empty layout |
| DDays.DDayHook.Loaded | dump/v2/frontend/lib/hooks/useDDays.tsx:127-147 | a load stores the month's events and their layout |
| DDays.DDayHook.DeleteDDay | dump/v2/frontend/lib/hooks/useDDays.tsx:347-367 | a successful delete removes the events with that id and returns true; otherwise nothing changes and it returns false; the layout is kept |
| DDays.DDayHook.GetRenderableDDaysForDay | dump/v2/frontend/lib/hooks/useDDays.tsx:194-213 | the day's slots by the stored layout |
| DDays.RenderedInOwnRow | dump/v2/frontend/lib/hooks/useDDays.tsx:194-213 | after a load a listed non-annual event is in the slot of its own row, unless an annual event takes that slot |
| EventHandlers.AtoiOrZero | dump/v2/go/handlers/ddays.go:83-84 | `strconv.Atoi` with the error dropped reads a digit string as its value |
| EventHandlers.DateError | dump/v2/go/handlers/ddays.go:252-267 | an empty date passes; otherwise a length other than 8 is "Invalid date format. Use YYYYMMDD", and pieces that do not parse or a month outside 1-12 or a day outside 1-31 are "Invalid date values" |
| EventHandlers.ApiDatesAccepted | dump/v2/go/handlers/ddays.go:252-267 | every date the calendar's own formatter writes passes the check |
| EventHandlers.DateCheckExamples | dump/v2/go/handlers/ddays.go:260-263 | a sign inside a piece and a day past the month's end pass; a letter in the year does not |
| EventHandlers.LastDayOfViewMonth | dump/v2/go/handlers/ddays.go:83-91 | the last day, from `time.Date(year, month + 1, 0)`, lies in 1..31 |
| EventHandlers.MonthBounds | dump/v2/go/handlers/ddays.go:86-91 | the month starts at `view + "01"` and ends at view plus the two-digit last day of that month |
| EventHandlers.Editable | dump/v2/go/handlers/ddays.go:194-199 | the stored boolean; true when the field is absent or not a boolean |
| EventHandlers.Run | dump/v2/go/handlers/ddays.go:108-126 | a query returns exactly the matching documents, in collection order |
| EventHandlers.FeedQueries | dump/v2/go/handlers/ddays.go:108-123 | the three queries: created by the user, connected to the user, both starting by the month's end; and the user's annual events |
| EventHandlers.GatherFacts | dump/v2/go/handlers/ddays.go:143-216 | the loop's invariant holds over any sequence of documents |
| EventHandlers.GatherDistinct | dump/v2/go/handlers/ddays.go:143-176 | the `seen` map lets each document id through at most once |
| EventHandlers.GatherOfSubset | dump/v2/go/handlers/ddays.go:143-216 | with unique ids, the feed lists each id once, holds the view of every visible document, and only views of visible documents |
| EventHandlers.GatherSnoc | dump/v2/go/handlers/ddays.go:143-216 | one more document is one more step of the loop |
| EventHandlers.FeedMembers | dump/v2/go/handlers/ddays.go:108-126 | together the three query results hold exactly the queried documents |
| EventHandlers.FeedOutcome | dump/v2/go/handlers/ddays.go:67-73 | an empty view is 400 "Missing view date parameter"; a failure other than that is a panic; the feed answers exactly when no queried document panics on conversion |
| EventHandlers.FeedContents | dump/v2/go/handlers/ddays.go:125-222 | with unique ids the feed lists each id once, holds every visible queried event, and nothing else |
| EventHandlers.FeedConverts | dump/v2/go/handlers/ddays.go:134-141 | no event of an answered feed has a failed `connectedUsers` conversion |
| EventHandlers.VisibleDigits | dump/v2/go/handlers/ddays.go:167-173 | for a non-annual event with digit dates, the string comparison is the date order: kept iff its end (or date) is on or after the first of the month |
| EventHandlers.VisibleAnnual | dump/v2/go/handlers/ddays.go:160-166 | an annual event is kept iff its month characters equal the view's; year and end date are ignored |
| EventHandlers.VisibleUndated | dump/v2/go/handlers/ddays.go:149-173 | a non-annual event without date or end date is kept in every month |
| EventHandlers.CreateError | dump/v2/go/handlers/ddays.go:252-273 | the date check first, then "Title is required" for an empty title; no error iff both pass |
| EventHandlers.WithPartnerCounts | dump/v2/go/handlers/ddays.go:288-294 | the partner is appended only when absent, so it appears, nobody is duplicated, and nobody else is added or dropped |
| EventHandlers.RequestReadsBack | dump/v2/go/handlers/ddays.go:305-333 | a stored request reads back through the feed and `DataTo` as the request |
| EventHandlers.CreatedEventReadsBack | dump/v2/go/handlers/ddays.go:305-333 | a created event reads back as its request with the creator, the times, the partner in `connectedUsers`, always editable, and the end date defaulting to the date |
| EventHandlers.CreatedEventOwned | dump/v2/go/handlers/ddays.go:305-317 | the new event is the caller's; one without dates is in every month of the caller's feed |
| EventHandlers.UpdateError | dump/v2/go/handlers/ddays.go:362-389 | a non-string date, a bad non-empty date and a non-string or empty title are rejected in that order; no error iff none applies |
| EventHandlers.UpdateListMembers | dump/v2/go/handlers/ddays.go:404-411 | the update list holds exactly the sent fields other than id, createdBy and createdAt |
| EventHandlers.UpdateListDistinct | dump/v2/go/handlers/ddays.go:404-411 | from distinct keys, the list names every field once |
| EventHandlers.KeptUnprotected | dump/v2/go/handlers/ddays.go:404-411 | enumerating the update map keeps exactly its unprotected fields |
| EventHandlers.UpdateListDuplicates | dump/v2/go/handlers/ddays.go:404-413 | with `updatedAt` appended, the list names a field twice iff the client also sent `updatedAt` |
| EventHandlers.UpdateListApplied | dump/v2/go/handlers/ddays.go:404-415 | applying the list gives the specified updated document |
| EventHandlers.UpdatedFields | dump/v2/go/handlers/ddays.go:404-415 | an update keeps the protected fields, stamps `updatedAt`, writes every other sent field and leaves the rest alone |
| EventHandlers.CreatedEventDecodes | dump/v2/go/handlers/ddays.go:305-333 | a created event decodes to the creation response, except for the partner added to `connectedUsers` |
| EventHandlers.DecodeList | dump/v2/go/handlers/ddays.go:426-427 | `DataTo` into `[]string`: nil for null, an array element by element with a null element read as "", and a failure exactly for another type or a non-string, non-null element |
| EventHandlers.DecodeListAgrees | dump/v2/go/handlers/ddays.go:426-427 | where `ToStringSlice` converts without a panic, `DataTo` gives the same slice |
| EventHandlers.DecodeListOfStrings | dump/v2/go/handlers/ddays.go:426-427 | a stored string array decodes back to its strings |
| EventHandlers.NullElementDecodes | dump/v2/go/handlers/ddays.go:426-427 | an array holding a null decodes with "" in its place, where `ToStringSlice` panics on it |
| EventHandlers.UpdatedEventDecodes | dump/v2/go/handlers/ddays.go:420-433 | after an update the event decodes with the new title and update time, and the creator and creation time it had |
| EventHandlers.FindEvent | dump/v2/go/handlers/ddays.go:393-398 | the document with that id, or nothing exactly when none has it |
| EventHandlers.AccessTo | dump/v2/go/handlers/ddays.go:394-402 | a missing id is a 404, a document whose `createdBy` is not a string panics, another creator is a 403 |
| EventHandlers.AccessOnlyCreator | dump/v2/go/handlers/ddays.go:399-402 | with unique ids, access is granted exactly to the event's creator |
| EventHandlers.RemoveAtEffect | dump/v2/go/handlers/ddays.go:463 | with unique ids, the delete removes exactly the event with that id |
| EventHandlers.UploadSizeError | dump/v2/go/handlers/ddays.go:478-485 | a file larger than 5 MB (5242880 bytes) is 413 "File size exceeds the 5MB limit", before any presigning |
| EventHandlers.Keep | dump/v2/go/handlers/ddays.go:148-174 | the loop's filter is the visibility rule |
| EventHandlers.EventOf | dump/v2/go/handlers/ddays.go:178-215 | the appended event is the document's view |
| EventHandlers.ConvertsAll | dump/v2/go/handlers/ddays.go:134-141 | the debug pass succeeds iff every document's `connectedUsers` converts |
| EventHandlers.CollectFrom | dump/v2/go/handlers/ddays.go:143-216 | the loop over one query continues the state the earlier queries left |
| EventHandlers.FirestoreUpdates | dump/v2/go/handlers/ddays.go:404-413 | the loop builds the specified list: a field is named twice iff the client sent `updatedAt`, and applying it gives the updated document |
| EventHandlers.UpdateOnlyByCreator | dump/v2/go/handlers/ddays.go:391-433 | only the creator changes an event, and only that event; every other outcome leaves the collection as it was |
| EventHandlers.UpdateRejections | dump/v2/go/handlers/ddays.go:362-402 | failed checks, a missing event and another creator's event leave the collection alone, with their replies |
| EventHandlers.UpdateKeepsWellFormed | dump/v2/go/handlers/ddays.go:391-433 | updates keep ids unique |
| EventHandlers.DeleteOnlyByCreator | dump/v2/go/handlers/ddays.go:452-467 | only the creator deletes; a delete removes the event with that id and keeps every other event |
| EventHandlers.DeleteKeepsWellFormed | dump/v2/go/handlers/ddays.go:452-467 | deletes keep ids unique |
| EventHandlers.EventStore.constructor | dump/v2/go/handlers/ddays.go:26-40 | an empty collection |
| EventHandlers.EventStore.GetDDays | dump/v2/go/handlers/ddays.go:47-223 | the handler answers the specified feed |
| EventHandlers.EventStore.CreateDDay | dump/v2/go/handlers/ddays.go:226-334 | on a failed check, a 400 with nothing written; otherwise the new event with the partner added is stored and the request echoed with its id, creator and times |
| EventHandlers.EventStore.UpdateDDay | dump/v2/go/handlers/ddays.go:337-435 | the handler's reply and new collection are the specified update outcome |
| EventHandlers.EventStore.DeleteDDay | dump/v2/go/handlers/ddays.go:438-468 | the handler's reply and new collection are the specified delete outcome |
| ConnectionHandlers.UserWithEmail | dump/v2/go/handlers/connection.go:60 | none exactly when no account has the e-mail; otherwise an account with that e-mail, the least such id (the query's first document) |
| ConnectionHandlers.FirstWithPartner | dump/v2/go/handlers/connection.go:124-126 | none exactly when no document of the subcollection names the partner; otherwise such a document, the least such id |
| ConnectionHandlers.FirstActive | dump/v2/go/handlers/connection.go:41-50 | none exactly when no document of the subcollection is active; otherwise an active one, the least such id |
| ConnectionHandlers.UserWithOwnEmail | dump/v2/go/handlers/connection.go:60 | with one account per e-mail, looking up a user's own e-mail finds that user |
| ConnectionHandlers.WithNameFacts | dump/v2/go/handlers/connection.go:273-276 | after an append of a missing name the name is listed once, every other name keeps its count, and removing it again restores the list |
| ConnectionHandlers.EditAll | dump/v2/go/handlers/connection.go:333-343 | the event loop keeps the number of events |
| ConnectionHandlers.EditFacts | dump/v2/go/handlers/connection.go:271-289 | a conversion panic happens exactly on an owner's event whose connectedUsers is not a string array; an edit keeps the id and every other field; a grant leaves the name present without a second copy; a revoke leaves exactly the other names in order |
| ConnectionHandlers.RevokeUndoesGrant | dump/v2/go/handlers/connection.go:333-343 | revoking the name a grant appended gives the event its former connected users back |
| ConnectionHandlers.EditAllPanics | dump/v2/go/handlers/connection.go:333-343 | a loop over the events panics exactly when one of the owner's events fails to convert |
| ConnectionHandlers.EditAllEdits | dump/v2/go/handlers/connection.go:333-343 | every event is either untouched or edited, and without a panic every event is edited |
| ConnectionHandlers.EditAllAfterPanic | dump/v2/go/handlers/connection.go:333-343 | events after the one that panicked are not visited |
| ConnectionHandlers.EditAllKeepsWellFormed | dump/v2/go/handlers/connection.go:333-343 | the loops keep event ids and creators, so the event collection stays well formed |
| ConnectionHandlers.EditAllStep | dump/v2/go/handlers/connection.go:335-342 | one more loop iteration writes the edit of that event and leaves the rest alone |
| ConnectionHandlers.EditAllStop | dump/v2/go/handlers/connection.go:335-342 | a panic at event i leaves the events from i on as they were |
| ConnectionHandlers.GrantOne | dump/v2/go/handlers/connection.go:271-277 | one iteration of a grant loop is the grant edit of that event |
| ConnectionHandlers.RevokeOne | dump/v2/go/handlers/connection.go:335-341 | one iteration of the revoke loop is the revoke edit of that event |
| ConnectionHandlers.GrantEvents | dump/v2/go/handlers/connection.go:270-289 | the grant loop rewrites the event collection as the grant edit of every event of the owner, stopping at a panic; the id counter is unchanged |
| ConnectionHandlers.RevokeEvents | dump/v2/go/handlers/connection.go:333-343 | removeFromEvents rewrites the event collection as the revoke edit of every event of the owner, stopping at a panic; the id counter is unchanged |
| ConnectionHandlers.Twin | dump/v2/go/handlers/connection.go:133-156 | under the handlers' invariant every connection document has a twin: another account with the partner's e-mail holding the same id, naming the user, with the other role and the same status |
| ConnectionHandlers.TwinOfTwin | dump/v2/go/handlers/connection.go:133-156 | the twin of a document's twin is the document itself |
| ConnectionHandlers.ConnectionOf | dump/v2/go/handlers/connection.go:25-72 | not connected exactly when the user has no active connection document; otherwise the first active one and the first account with its partner's e-mail |
| ConnectionHandlers.ConnectionIsMutual | dump/v2/go/handlers/connection.go:25-72 | under the invariant a reported connection is mutual: the partner is the account the document names, and that account holds the same connection, active, naming the user |
| ConnectionHandlers.InviteRules | dump/v2/go/handlers/connection.go:78-164 | an invitation is sent exactly when the e-mail is present and well formed, not the caller's own after trim and lower-case, an account's, and new to the caller; a refusal changes nothing; a sent one writes an initiator and a receiver document, both pending, under the id it answers with |
| ConnectionHandlers.InviteByPlan | dump/v2/go/handlers/connection.go:100-163 | a refused check answers with its error and writes nothing; a passed one writes the pair under the counter's id |
| ConnectionHandlers.PlanInviteSends | dump/v2/go/handlers/connection.go:95-129 | the checks pass exactly when the e-mail is well formed, another user's and new to the caller, and then the target is the account with the normalised e-mail |
| ConnectionHandlers.FreshId | dump/v2/go/handlers/connection.go:133 | a new id from the counter is used by no user's connection document |
| ConnectionHandlers.InvitedMirrored | dump/v2/go/handlers/connection.go:133-156 | the two new documents are each other's twins and every other document keeps its twin |
| ConnectionHandlers.InvitedOnePerPartner | dump/v2/go/handlers/connection.go:123-129 | the new documents name partners the two users had no document for, so each user keeps at most one document per partner |
| ConnectionHandlers.InvitedIds | dump/v2/go/handlers/connection.go:133 | every connection id stays below the advanced counter |
| ConnectionHandlers.InviteKeepsLinked | dump/v2/go/handlers/connection.go:78-164 | an invitation keeps the handlers' invariant |
| ConnectionHandlers.AcceptActivates | dump/v2/go/handlers/connection.go:204-265 | under the invariant an acceptance fails exactly for a missing document or a caller who is not its receiver, changing nothing; otherwise both documents become active, each naming the other user, and no other connection document changes |
| ConnectionHandlers.GrantPass | dump/v2/go/handlers/connection.go:270-278 | a grant pass without a panic lists the name on each of the owner's events, appended only where missing, and changes no other event |
| ConnectionHandlers.AcceptShares | dump/v2/go/handlers/connection.go:267-289 | after a completed acceptance each partner is listed on every event the other created, appended only where missing, and no other event changes |
| ConnectionHandlers.AcceptKeepsLinked | dump/v2/go/handlers/connection.go:204-291 | an acceptance keeps the handlers' invariant |
| ConnectionHandlers.ActivatedSameDocs | dump/v2/go/handlers/connection.go:243-260 | the acceptance rewrites two documents in place, so ids and partners stay as they were |
| ConnectionHandlers.ActivatedMirrored | dump/v2/go/handlers/connection.go:243-260 | the activated pair stays mirrored and records each other's ids, and every other document keeps its twin |
| ConnectionHandlers.RejectRemovesPair | dump/v2/go/handlers/connection.go:296-375 | under the invariant a rejection is refused exactly for a caller without an e-mail or without the document, changing nothing; a completed one deletes that document and its twin and no other |
| ConnectionHandlers.RevokePass | dump/v2/go/handlers/connection.go:333-343 | a revoke pass without a panic leaves the name on none of the owner's events, keeps the other names in order, and changes no other event |
| ConnectionHandlers.RejectRevokes | dump/v2/go/handlers/connection.go:322-345 | after a completed rejection neither partner is listed on an event the other created, every other name stays in order, and no other event changes |
| ConnectionHandlers.RejectKeepsLinked | dump/v2/go/handlers/connection.go:296-375 | a rejection keeps the handlers' invariant |
| ConnectionHandlers.DeletedSubset | dump/v2/go/handlers/connection.go:358-367 | deleting documents keeps ids below the counter and partners distinct |
| ConnectionHandlers.DeletedMirrored | dump/v2/go/handlers/connection.go:358-367 | after deleting a document and its twin every remaining document keeps its twin |
| ConnectionHandlers.AcceptThenRejectRestores | dump/v2/go/handlers/connection.go:204-375 | rejecting a connection right after accepting it deletes both documents, leaves every other connection document as before the acceptance, and gives each event of either partner its former connected users back |
| ConnectionHandlers.RemovePairAfterUpdate | dump/v2/go/handlers/connection.go:358-367 | deleting a document and its twin erases any earlier update of the two |
| ConnectionHandlers.RejectOfReceiver | dump/v2/go/handlers/connection.go:322-345 | a receiver's rejection revokes on the initiator's events first, then on the receiver's |
| ConnectionHandlers.SharesThenRevokes | dump/v2/go/handlers/connection.go:333-345 | the two revoke passes of a rejection over events an acceptance shared do not panic and remove exactly what was granted |
| ConnectionHandlers.RejectNoPanic | dump/v2/go/handlers/connection.go:333-343 | a revoke pass over events whose owner's entries all convert does not panic |
| ConnectionHandlers.ConnectionStore.constructor | dump/v2/go/handlers/connection.go:25-72 | a store of accounts with distinct e-mails and no connections satisfies the invariant |
| ConnectionHandlers.ConnectionStore.CheckInvite | dump/v2/go/handlers/connection.go:95-129 | the handler's checks, run in order against the stored documents, give the planned outcome |
| ConnectionHandlers.ConnectionStore.Invite | dump/v2/go/handlers/connection.go:78-164 | the reply and the new documents and counter are the invitation's outcome; accounts are unchanged and the invariant is kept |
| ConnectionHandlers.ConnectionStore.Accept | dump/v2/go/handlers/connection.go:204-291 | the reply, connection documents and events are the acceptance's outcome; accounts and counters are unchanged and the invariant is kept |
| ConnectionHandlers.ConnectionStore.Reject | dump/v2/go/handlers/connection.go:296-375 | the reply, connection documents and events are the rejection's outcome; accounts and counters are unchanged and the invariant is kept |
| CheckinHandlers.CreateError | dump/v2/go/handlers/checkin.go:60-79 | no error exactly when date, mood and energy are present and the date has the ten-character shape; otherwise the first failing check's message in the handler's order |
| CheckinHandlers.DateParamError | dump/v2/go/handlers/checkin.go:170-180 | no error exactly when the date parameter has the ten-character shape; an empty one is "required", another bad one "invalid format" |
| CheckinHandlers.FindCheckin | dump/v2/go/handlers/checkin.go:184-191 | none exactly when no check-in has the date; otherwise the first check-in with it |
| CheckinHandlers.Given | dump/v2/go/handlers/checkin.go:109-117 | an optional answer is stored exactly when it is non-empty, and then as sent |
| CheckinHandlers.ViewOf | dump/v2/go/handlers/checkin.go:198-217 | the answer carries the stored id, date and answers, a missing answer as "", and a null creation time as the current time |
| CheckinHandlers.TodayCheckin | dump/v2/go/handlers/checkin.go:159-218 | 400 exactly for a malformed date; for a well-formed one 404 exactly when no check-in has that date, otherwise the first such check-in |
| CheckinHandlers.FindFirst | dump/v2/go/handlers/checkin.go:184-191 | with one check-in per date, the check-in at index i is the one found for its date |
| CheckinHandlers.UpsertLookup | dump/v2/go/handlers/checkin.go:83-125 | after a create the date's check-in is the written one: an existing one keeps its place, id and creation time, a new one is appended with the new id and created now, and no other check-in changes |
| CheckinHandlers.UpsertKeeps | dump/v2/go/handlers/checkin.go:83-125 | a create keeps one check-in per date and a creation time on each |
| CheckinHandlers.CreateThenGet | dump/v2/go/handlers/checkin.go:101-125 | reading a date back after creating its check-in answers with the request's answers, the optional ones exactly as sent |
| CheckinHandlers.CreateTwice | dump/v2/go/handlers/checkin.go:83-125 | re-sending a check-in for a date changes neither the number of check-ins nor the date's id nor its creation time |
| CheckinHandlers.CreateOther | dump/v2/go/handlers/checkin.go:83-125 | a create for one date does not change what another date reads |
| CheckinHandlers.DeleteThenGet | dump/v2/go/handlers/checkin.go:345-367 | with one check-in per date a deleted date then reads as not found, and the others stay in order |
| CheckinHandlers.DeleteOther | dump/v2/go/handlers/checkin.go:345-367 | deleting one date does not change what another date reads |
| CheckinHandlers.CheckinStore.constructor | dump/v2/go/handlers/checkin.go:43-53 | an empty subcollection for one user satisfies the store invariant |
| CheckinHandlers.CheckinStore.CreateCheckin | dump/v2/go/handlers/checkin.go:43-157 | a refused request answers 400 with the check's message and writes nothing; an accepted one stores the upserted check-in and answers with it as read back; the invariant is kept |
| CheckinHandlers.CheckinStore.DeleteCheckin | dump/v2/go/handlers/checkin.go:319-368 | a bad date answers 400 and a missing check-in 404, both writing nothing; otherwise the date's first check-in is removed |
| GoUtil.Contains | dump/v2/go/util/util.go:5-13 | true exactly when the string is an element of the slice |
| GoUtil.Remove | dump/v2/go/util/util.go:16-24 | the result is the slice with every occurrence of the string dropped (the reference `Without`) |
| GoUtil.WithoutAppend | dump/v2/go/util/util.go:16-24 | removal distributes over concatenation, so the kept elements stay in their original order |
| GoUtil.WithoutCounts | dump/v2/go/util/util.go:16-24 | every other element keeps its count, the string no longer occurs, and the length drops by its number of occurrences |
| GoUtil.WithoutAbsent | dump/v2/go/util/util.go:16-24 | removing a string that does not occur returns the slice unchanged |
| GoUtil.ToStringSlice | dump/v2/go/util/util.go:27-40 | nil for a non-array value; otherwise the element-wise strings of the array, or a panic exactly when some element is not a string |
| GoUtil.StringsRoundTrip | dump/v2/go/util/util.go:27-40 | a string slice stored as an array field converts back to the same slice |
| GoUtil.IsValidEmail | dump/v2/go/util/util.go:43-65 | false for fewer than 3 or more than 254 characters; otherwise true exactly when a '.' follows the only '@' seen so far by at least two places and is not the last character |
| GoUtil.NoDotAfterSecondAt | dump/v2/go/util/util.go:48-64 | once a second '@' has been met, no later '.' can make the address valid |
| GoUtil.GetStringValue | dump/v2/go/util/util.go:68-75 | the field's text when it holds a string, and the empty string when it is missing, nil or of another type |
| GoUtil.GetStringValueAfterWrite | dump/v2/go/util/util.go:68-75 | a string written to a field reads back, and writing one field leaves the reading of every other field unchanged |
| GoUtil.GetMapKeys | dump/v2/go/util/util.go:78-84 | every key of the document exactly once, and nothing else |
| Text.NatToString | dump/v2/frontend/app/tracker/page.tsx:31-33 | the decimal rendering of a number is canonical (no leading zero) and reads back as that number |
| Text.NatToStringOfCanonical | dump/v2/frontend/app/tracker/page.tsx:29-40 | a canonical digit string is the rendering of its own value |
| Text.IntToStringInjective | dump/v2/frontend/lib/utils.ts:46-48 | distinct integers are rendered as distinct strings |
| Text.PadStart2 | dump/v2/frontend/app/tracker/page.tsx:31-32 | padStart(2, "0") leaves a string of two or more characters alone and left-pads a shorter one with zeros to two characters |
| Text.TwoDigits | dump/v2/frontend/app/tracker/page.tsx:31-32 | a number below 100 is written as two digits that read back as it |
| Text.TwoDigitsOfDigits | dump/v2/frontend/app/tracker/page.tsx:37-40 | every two-digit string is the two-digit rendering of its value |
| Text.TrimStart | dump/v2/go/handlers/connection.go:108 | the result is a suffix of the input starting at a non-space, and every dropped character is white space |
| Text.TrimEnd | dump/v2/go/handlers/connection.go:108 | the result is a prefix of the input ending at a non-space, and every dropped character is white space |
| Text.ToLower | dump/v2/go/handlers/connection.go:108 | the same length, each character lower-cased, so no upper-case ASCII letter remains |
| Text.GoAtoi | dump/v2/go/handlers/ddays.go:83-84 | a non-empty digit string reads as its value, and the empty string is an error |
| Text.JsNumber | dump/v2/frontend/app/tracker/page.tsx:38 | Number of a non-empty digit string is its value |
| Text.JsParseInt | dump/v2/frontend/components/tracker/CycleSettingsForm.tsx:35-36 | parseInt of a canonical digit string is its value |
| Text.JsParseIntOfDigits | dump/v2/frontend/lib/hooks/useDDays.tsx:25-27 | parseInt of a non-empty digit string is its value, leading zeros included |
| Text.Split | dump/v2/frontend/app/tracker/page.tsx:38 | split on one character yields at least one piece, none containing the separator |
| Text.SplitThree | dump/v2/frontend/app/tracker/page.tsx:38 | a date key joined from three pieces without the separator splits back into those pieces |
| Text.SplitJoin | dump/v2/frontend/app/tracker/page.tsx:38 | splitting undoes joining pieces that do not contain the separator |
| Text.StrLeTotal | dump/v2/go/handlers/connection.go:60 | the code-unit order of document ids is total |
| Text.StrLeAntisymmetric | dump/v2/go/handlers/connection.go:60 | the code-unit order of document ids is antisymmetric |
| Text.StrLeTransitive | dump/v2/go/handlers/connection.go:60 | the code-unit order of document ids is transitive |
| Text.LeastExists | dump/v2/go/handlers/connection.go:60 | a non-empty set of document ids has a least one, the query's first result |
| Text.Least | dump/v2/go/handlers/connection.go:60 | the chosen id belongs to the set and precedes every other id in it |
| Text.StrLeDigits | dump/v2/go/handlers/connection.go:133 | digit strings of one length compare as their values compare |
| Dates.Weekday | dump/v2/frontend/lib/hooks/useCalendar.tsx:17 | getDay gives a weekday from 0 (Sunday) to 6 |
| Dates.CivilFromDaysValid | dump/v2/frontend/app/tracker/page.tsx:37-40 | every day number names a valid calendar date which converts back to that day number |
| Dates.DaysFromCivilRoundTrip | dump/v2/frontend/app/tracker/page.tsx:37-40 | every valid calendar date converts to a day number that converts back to it |
| Dates.CivilFromDaysInjective | dump/v2/frontend/app/tracker/page.tsx:29-40 | different days have different calendar dates |
| Dates.JsMakeDayOfValid | dump/v2/frontend/app/tracker/page.tsx:39 | new Date(y, m - 1, d) is the valid date (y, m, d) itself when y is not 0..99 |
| Dates.JsMakeDayFirstOfMonth | dump/v2/frontend/lib/hooks/useCalendar.tsx:17 | new Date(y, m0, 1) is the first of month m0 counted on from January of year y, rolling into later years |
| Dates.JsLastDayOfMonth | dump/v2/frontend/lib/hooks/useCalendar.tsx:11-13 | new Date(y, m0 + 1, 0) is the last day of month m0 |
| Dates.LastDayOfMonth | dump/v2/go/handlers/ddays.go:90 | time.Date(y, m + 1, 0) is the last day of month m, and the month has that many days |
| Dates.JsMakeDayGoDate | dump/v2/frontend/lib/hooks/useDDays.tsx:24-28 | for a year outside 0..99 new Date(y, m0, d) and Go time.Date(y, m0 + 1, d) are the same day |
| Dates.SetDate | dump/v2/frontend/app/tracker/page.tsx:373 | setDate(d) moves the date by d minus its day of month, rolling over month ends |
| Calendar.GoDateFirstRolls | dump/v2/frontend/lib/hooks/useCalendar.tsx:42-59 | the first of month 0 is the first of December of the year before, and of month 13 the first of January of the year after |
| DDays.ParseThenFormat | dump/v2/frontend/lib/hooks/useDDays.tsx:23-40 | a compact date string of a valid date parses and formats back to itself |
| PeriodHandlers.FindAfterUpdate | dump/v2/go/handlers/periods.go:215-289 | when the date's first record is at index i, overwriting it with a record of that date keeps the date found at i |
| PeriodHandlers.FindAfterAppend | dump/v2/go/handlers/periods.go:215-289 | after appending a record for a new date, that date is found at the end |
| EventHandlers.RemoveAt | dump/v2/go/handlers/ddays.go:463 | deleting one event document leaves one fewer document, all from the original collection |
| EventHandlers.KeptFields | dump/v2/go/handlers/ddays.go:404-411 | the kept update fields are exactly the requested keys that are not protected, with the requested values |
| EventHandlers.UpdateListApply | dump/v2/go/handlers/ddays.go:404-415 | applying the update list overwrites the document's fields with exactly the kept fields |
| EventHandlers.NewEventFields | dump/v2/go/handlers/ddays.go:305-317 | the new event document holds the request's fields, the creator's e-mail, the connected users and the creation time |

## Left out

- I/O, network, sessions and toasts. Firestore, HTTP, gin sessions and the frontend's fetch calls are not modelled. Collections are in-memory `map`s and `seq`s. The 401 "Unauthorized" answer for a missing session is not modelled, since every handler is called with a user id.
- Time zones and daylight saving time. The model has no time of day beyond `nowMs`, no DST, and no UTC keys from `toISOString`.
- Years 0–99 in `new Date`. The year mapping to 1900+y is modelled in `Dates.JsMakeDay`, but the lemmas about it assume other years.
- The JavaScript `Date` string parser. Only the `Number`/`parseInt` pieces of `parseDateKey` and `parseDateString` are modelled. A key whose pieces are not numbers is treated as an invalid date and dropped.
- The engine's sort. `Array.prototype.sort` is modelled as a stable insertion sort with the same comparator, so the proved results hold for any correct sort apart from the order of equal elements.
- Floating point. Millisecond differences become integer day counts. `Math.round` is modelled as rounding half up, which is exact on the integers it meets here.
- Typed documents. Connection, user, period-day and check-in documents are typed records. Only event documents are dynamic field maps. `DataTo`'s case-insensitive field matching and dotted update paths are not modelled.
- Firestore error text is not modelled, nor the 500 answers for failed queries and transactions. The only transaction failures modelled are those Firestore reports for an update of a missing document, as in Accept. Deleting a missing document succeeds, as Reject's delete of a missing partner document does.
- Document ids come from a counter and are decimal strings. Firestore's random ids are not modelled.
- Text is a sequence of characters. Bytes are not distinguished from runes, and `ToLower`/`TrimSpace` treat ASCII only.
- JSON binding. Requests arrive as already-decoded field values. The one binding failure modelled is `InviteConnection`'s required `email` left empty, answered with gin's validation message. Malformed JSON and mistyped fields ("Invalid request body" and the like) are not modelled.
- Panics are modelled as `Panicked`: type assertions on missing or mistyped fields, and `ToStringSlice` on an array holding a non-string. A `nil` slice and an empty slice are not distinguished.
- The debug lookup of the caller's connection in `GetDDays` (go/handlers/ddays.go:95-106) is not modelled: only its log output depends on it.
- Read-only handlers whose logic is one query are not part of this model: `GetPendingInvitations` (go/handlers/connection.go:168-199), `GetPartnerCheckin`, `GetPeriodDays` and `GetPartnerPeriodDays`.
- The upload URL presigning in go/handlers/ddays.go after line 487 is not modelled. It needs the object store's client; only the size limit is modelled.
- TodaysSummary `getCycleLength`'s history branch (components/tracker/TodaysSummary.tsx:42-75) is not modelled, because the tracker page never passes period history to the component. The modelled value is the given cycle length or 28.
- Profile fields other than e-mail and name are not modelled, including `passwordHash`, which `GetConnection` strips. The partner's profile in its reply is the modelled profile.
- CheckinHandlers: the model covers one user's `checkins` subcollection. The user id is a store field rather than a session lookup.
- React state is modelled as synchronous. After each change, async state updates, re-renders and refetches become one reassignment of the hook's fields. Races between them are left out, and so is everything rendered.
- GoUtil.GetMapKeys: the order of the keys is left open, as Go's map iteration order is unspecified. Only "each key exactly once" is stated.
- Text.JsNumber: the fractional, exponent, hexadecimal and `Infinity` forms are all reported as `None` (NaN), so only integer literals get a value. The keys the page parses are digit strings.
- Text.JsParseInt: the value is stated only for canonical digit strings. For other inputs the function follows the JavaScript algorithm, but no lemma states that.
