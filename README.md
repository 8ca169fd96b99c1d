# TimeCard View: the Kronos timesheet core in Dafny

TimeCard View is a web client for the Kronos timekeeping service. This project models
three parts of it and proves properties of them.

1. **The response parsers** (`parsers.js`). They turn an already-decoded Kronos
   response into a timesheet. The timesheet has:
   - the pay period's bounds;
   - the days inside the period, each with its grand total in hours and its pay-code
     breakdown with camel-cased keys;
   - the in- and out-punches as zoned instants;
   - the timekeeping exceptions of every span, in span order.

   The parsers also read the status of a login or logout reply.
2. **The store** (`store.js`). `KronosStore` holds the user name, the parsed timesheet
   and the schedule. It changes them on login, logout, a timesheet fetch and a schedule
   fetch, and answers lookups by calendar day.
3. **The day view** (`DayOverview.js`). For one day it:
   - stamps each of that day's punch records in place with an entry type and a moment,
     using its own lenient time-zone reading with a `-07:00` fallback;
   - adds the day's scheduled shifts, using the time zone carried over from the last
     punch;
   - sorts everything by time;
   - picks the pay-code-140 totals of that day.

Modules:
- `Wrappers` holds `Option` and `Result`.
- `Seqs` holds the lodash and underscore list operations: `filter`, `map`, `compact`,
  `flatten`, first-match `find`, and the stable `sortBy`.
- `Calendar` holds:
  - dates as `(year, month, day)` with a day count;
  - `M/DD/YYYY` and `H:MM` text;
  - the `[+-]\d\d:\d\d` offset search;
  - zoned moments as whole minutes since 0000-01-01T00:00Z.
- `Payload` holds the decoded response.
- `Parsers` and `ParsersProperties` cover `parsers.js`.
- `Store` covers `store.js`.
- `DayOverview` covers `DayOverview.js`.

Some representation choices:
- Durations are whole hundredths of an hour.
- moment's invalid date is `Moment.Invalid`, or `None` for a bare date.
- A `NaN` duration is `Hours.NotANumber`.
- In these places where the source throws a `TypeError`, the model returns a `Result`
  failure:
  - `parseTimesheet` meets a punch with no time zone, or one without an offset;
  - `kronosMoment` meets a non-empty time zone without an offset (`OffsetNotFound`);
  - the day view reads `Punch` of a span's missing in- or out-punch record
    (`PunchMissing`).

  The day view's other `TypeError`s come from a missing `TotaledSpans`, `ScheduleItems`
  or `ShiftSegments` object. The model's inputs always have these objects, as
  "## Left out" says.

Two behaviours of the code that are easy to miss, and that the model follows:
- A duration that moment cannot read gives `NaN`, not an error.
- A date that moment cannot read gives an invalid moment. Such a day is dropped by the
  period filter, because every comparison with `NaN` is false.

## Model

| member | source | states |
|---|---|---|
| Seqs.FilterConcat | app/scripts/flux/kronos/parsers.js:67 | filtering a concatenation filters each part, so kept elements keep their order |
| Seqs.FilterIsSubsequence | app/scripts/flux/kronos/store.js:95-106 | what `_.filter` keeps is a subsequence of its input |
| Seqs.FilterCounts | app/scripts/flux/kronos/parsers.js:67 | `_.filter` keeps every copy of an element that passes and no copy of one that fails |
| Seqs.FilterPairwise | app/scripts/components/DayOverview/DayOverview.js:59-62 | a relation between the elements at any two distinct positions still holds after `_.filter` |
| Seqs.CompactConcat | app/scripts/flux/kronos/parsers.js:72 | `compact` of a concatenation is the concatenation of the compacted parts |
| Seqs.CompactAllPresent | app/scripts/flux/kronos/parsers.js:105-107 | `compact` drops nothing from a list of present values |
| Seqs.FlattenConcat | app/scripts/flux/kronos/parsers.js:118 | `flatten` of a concatenation is the concatenation of the flattened parts |
| Seqs.FlattenNonEmpty | app/scripts/flux/kronos/parsers.js:117-118 | dropping the empty lists before `flatten` does not change its result |
| Seqs.FirstIndex | app/scripts/flux/kronos/store.js:90-93 | `_.find`: the index found satisfies the test and no earlier one does; none is found only when none satisfies it |
| Seqs.SortByCorrect | app/scripts/components/DayOverview/DayOverview.js:96-97 | `_.sortBy` gives a sorted permutation of its input in which elements with equal keys keep their input order |
| Calendar.DayNumberOrder | app/scripts/flux/kronos/parsers.js:67 | comparing two dates' moments (their day counts) agrees with calendar order, and two valid dates have the same day count only when they are the same date |
| Calendar.JoinSplit | app/scripts/flux/kronos/parsers.js:49 | joining the pieces of `split(sep)` with `sep` gives back the original text |
| Calendar.SplitWhole | app/scripts/flux/kronos/parsers.js:49 | `split` gives the whole text as its only piece exactly when the separator occurs nowhere in it |
| Calendar.SplitAtFirst | app/scripts/flux/kronos/parsers.js:49 | `split` cuts at the first separator when the text before it holds no separator character |
| Calendar.FormatDate | app/scripts/components/DayOverview/DayOverview.js:61 | `format("M/DD/YYYY")` writes the month, the two-digit day and the four-digit year, separated by exactly two slashes |
| Calendar.ParseFormatDate | app/scripts/flux/kronos/parsers.js:50 | reading the `M/DD/YYYY` text of a valid date gives back that date |
| Calendar.ParseDate | app/scripts/flux/kronos/parsers.js:50 | a date read from `M/DD/YYYY` text is always a valid calendar date |
| Calendar.ParseClock | app/scripts/flux/kronos/parsers.js:147 | a clock read from `HH:mm` text has hour at most 23 and minute at most 59 |
| Calendar.MatchOffset | app/scripts/flux/kronos/parsers.js:76 | the result is the leftmost `[+-]\d\d:\d\d` in the text, and there is none exactly when no position matches |
| Calendar.MatchOffsetAt | app/scripts/flux/kronos/parsers.js:76 | a match at position k with none before it is the result |
| Calendar.ParseOffset | app/scripts/flux/kronos/parsers.js:78-81 | an offset is read exactly from six-character `±HH:MM` text, and its value is ± (60 × hours + minutes) |
| Calendar.ParseFormatOffset | app/scripts/flux/kronos/parsers.js:78-81 | reading back the `±HH:MM` text of an offset gives that offset |
| Calendar.BuildMoment | app/scripts/flux/kronos/parsers.js:78-81 | a moment from date, time and offset text is valid exactly when the date, the time and the offset text can all be read; it then holds that date, that offset and the minute 60 × hour + minute |
| Calendar.InstantOrder | app/scripts/flux/kronos/parsers.js:78-81 | with equal offsets, instants are ordered as the local date and time, and two instants are equal only for the same date, time and offset |
| Parsers.ParseTime | app/scripts/flux/kronos/parsers.js:144-153 | a duration is a number exactly when the text is a clock time; it is then the nearest hundredth of hours plus minutes/60, and at most 23.98 |
| Parsers.ParseTimeNearest | app/scripts/flux/kronos/parsers.js:149-151 | every hundredth within a third of a hundredth of the exact value is the result, so the rounding never meets a tie |
| Parsers.CamelFromLetters | app/scripts/flux/kronos/parsers.js:141 | the renamed key has one character per non-separator character of the key, each the same letter up to case, and its first character is lower-cased |
| Parsers.CamelCaseProperties | app/scripts/flux/kronos/parsers.js:140-142 | every renamed key of the record is a key of the result |
| Parsers.CamelCasePropertiesValues | app/scripts/flux/kronos/parsers.js:140-142 | every value of the result is the value of the last attribute renamed to its key, carried over unchanged |
| Parsers.PeriodBounds | app/scripts/flux/kronos/parsers.js:47-51 | bounds that are read are valid dates; an end bound exists only when the text holds `" - "`; without a period text neither bound exists |
| Parsers.GrandTotal | app/scripts/flux/kronos/parsers.js:60 | a missing or empty grand total reads as `"0:00"`, that is zero hours; any other is read with `parseTime` |
| Parsers.ParseDay | app/scripts/flux/kronos/parsers.js:58-65 | a day has the record's date read as `M/DD/YYYY`, its grand total, and one camel-cased breakdown per `Totals.Total` entry, in order |
| Parsers.ParseDays | app/scripts/flux/kronos/parsers.js:56-68 | every kept day lies within the period's bounds |
| Parsers.PunchOf | app/scripts/flux/kronos/parsers.js:73-83 | a punch can be read exactly when its time zone is present and contains an offset; its moment is then built from its date, its time and the first offset in the time zone |
| Parsers.BuildPunches | app/scripts/flux/kronos/parsers.js:73-84 | punch reading succeeds exactly when every punch can be read, and then gives one punch per record, in order |
| Parsers.ExtractPunches | app/scripts/flux/kronos/parsers.js:69-100 | on success, one punch per present punch record of the side, in span order, each read from its record |
| Parsers.SideReadable | app/scripts/flux/kronos/parsers.js:69-100 | a side's punches are read exactly when every present punch record on that side can be read |
| Parsers.ReadableSides | app/scripts/flux/kronos/parsers.js:69-100 | both sides are read exactly when every present punch, in or out, can be read |
| Parsers.NormalizeExceptions | app/scripts/flux/kronos/parsers.js:103-107 | an absent field gives no exception, a lone record gives one, and a list gives its elements in order |
| Parsers.SpanExceptions | app/scripts/flux/kronos/parsers.js:103-115 | one exception per record; each takes the span's date, passes type and in-punch flag through (each possibly missing), and reads both durations with `parseTime`, a missing one as the text `"undefined"` |
| Parsers.MissingIsUnreadable | app/scripts/flux/kronos/parsers.js:111-113 | a missing span date reads as an invalid moment, and a missing duration as `NaN` hours |
| Parsers.ExtractExceptions | app/scripts/flux/kronos/parsers.js:101-119 | the exceptions are those of every span, concatenated in span order |
| Parsers.ParseTimesheet | app/scripts/flux/kronos/parsers.js:46-121 | the timesheet is built exactly when every present punch has a readable time zone, and every day in it lies within the period's bounds |
| Parsers.CompactSides | app/scripts/flux/kronos/parsers.js:69-72 | a present punch on a side is among the records `compact` keeps, and every kept record is a present punch |
| Parsers.ErrorCodeOf | app/scripts/flux/kronos/parsers.js:129 | the error code is the field's value when present and `""` when absent |
| Parsers.ParseLogin | app/scripts/flux/kronos/parsers.js:124-131 | login status and user name are carried over and the error code defaults to `""` |
| Parsers.ParseLogout | app/scripts/flux/kronos/parsers.js:132-138 | logout status is carried over and the error code defaults to `""` |
| ParsersProperties.PeriodOfWellFormed | app/scripts/flux/kronos/parsers.js:47-51 | a period written as two `M/DD/YYYY` dates joined by `" - "` yields exactly those dates as bounds |
| ParsersProperties.NoPeriodNoDays | app/scripts/flux/kronos/parsers.js:47-51 | without a period text the start is an invalid moment and the end is undefined (both `None`), and no day is kept |
| ParsersProperties.InPeriodIsCalendarOrder | app/scripts/flux/kronos/parsers.js:67 | a day is within valid bounds exactly when start ≤ date ≤ end in calendar order |
| ParsersProperties.ParseDaysCounts | app/scripts/flux/kronos/parsers.js:56-68 | the kept days are exactly the parsed days within the period, each as often as it is parsed |
| ParsersProperties.ParseDaysAppend | app/scripts/flux/kronos/parsers.js:56-68 | one more day record adds its parsed day at the end exactly when it is within the period, so kept days stay in source order |
| ParsersProperties.ParseTimeEightFifteen | app/scripts/flux/kronos/parsers.js:144-153 | `"8:15"` reads as 8.25 hours |
| ParsersProperties.ParseTimeEightThirty | app/scripts/flux/kronos/parsers.js:144-153 | `"8:30"` reads as 8.5 hours |
| ParsersProperties.ParseTimeOneOhSeven | app/scripts/flux/kronos/parsers.js:144-153 | `"1:07"` reads as 1.12 hours |
| ParsersProperties.MomentOfFormatted | app/scripts/flux/kronos/parsers.js:78-81 | the moment of a formatted date, `H:MM` time and offset is that date, minute and offset, and its instant is the local minute minus the offset |
| ParsersProperties.DayDefaults | app/scripts/flux/kronos/parsers.js:60-62 | a missing or empty grand total gives 0 hours, and a missing `Totals.Total` gives no breakdown |
| ParsersProperties.ExtractPunchesAppend | app/scripts/flux/kronos/parsers.js:69-100 | one more span adds exactly its punch on that side, if it has one, at the end |
| ParsersProperties.BuildPunchesSnoc | app/scripts/flux/kronos/parsers.js:73-84 | one more record is read exactly when the earlier ones and it can be read, and adds its punch at the end |
| ParsersProperties.NoSpansNoPunches | app/scripts/flux/kronos/parsers.js:69-72 | no spans give no punches |
| ParsersProperties.ExtractExceptionsAppend | app/scripts/flux/kronos/parsers.js:101-119 | one more span appends exactly its exceptions, so the result is the concatenation over spans in span order |
| ParsersProperties.MatchOffsetExample | app/scripts/flux/kronos/parsers.js:76 | the offset of `"(GMT -05:00) Eastern Time"` is `"-05:00"` |
| ParsersProperties.LoginLogoutAgree | app/scripts/flux/kronos/parsers.js:124-138 | login and logout replies agree on status and error code, and an absent code reads as `""` |
| Store.KronosStore.constructor | app/scripts/flux/kronos/store.js:17-26 | the initial state has no user, empty timesheet lists and an empty schedule, so nobody is logged in |
| Store.KronosStore.IsLoggedIn | app/scripts/flux/kronos/store.js:107-109 | logged in exactly when the user name is present and not empty |
| Store.KronosStore.HandleLogin | app/scripts/flux/kronos/store.js:65-72 | the user name is taken exactly when the status is `Success` or the error code is `1313`, and nothing else changes |
| Store.KronosStore.HandleLogout | app/scripts/flux/kronos/store.js:73-80 | the user name is cleared exactly when the status is `Success`, and nothing else changes |
| Store.KronosStore.HandleTimesheetFetch | app/scripts/flux/kronos/store.js:81-83 | the timesheet is replaced by the parsed one and the user and schedule are kept; when parsing throws the state is unchanged |
| Store.KronosStore.HandleScheduleFetch | app/scripts/flux/kronos/store.js:84-88 | only the schedule is replaced |
| Store.KronosStore.GetDay | app/scripts/flux/kronos/store.js:89-94 | the first stored day on the date, and nothing exactly when no stored day is on it |
| Store.KronosStore.GetInPunchesForDate | app/scripts/flux/kronos/store.js:95-100 | exactly the stored in-punches on the date, each as often as it is stored, in stored order |
| Store.KronosStore.GetOutPunchesForDate | app/scripts/flux/kronos/store.js:101-106 | exactly the stored out-punches on the date, each as often as it is stored, in stored order |
| DayOverview.ZoneOffset | app/scripts/components/DayOverview/DayOverview.js:48 | an absent or empty time zone gives `-07:00`; any other gives its first `±HH:MM`, or nothing |
| DayOverview.KronosMoment | app/scripts/components/DayOverview/DayOverview.js:43-53 | fails, with `OffsetNotFound`, exactly when a non-empty time zone has no offset; otherwise the moment of `M/DD/YYYY HH:mm Z` at that offset |
| DayOverview.FallbackIsMinusSeven | app/scripts/components/DayOverview/DayOverview.js:48 | the fallback offset is seven hours west of UTC |
| DayOverview.DayTextOf | app/scripts/components/DayOverview/DayOverview.js:61 | the route date's text is its `M/DD/YYYY` formatting when the date is valid, and reads back as that date; an invalid date gives the text `"Invalid date"`, which reads as no date |
| DayOverview.SpanError | app/scripts/components/DayOverview/DayOverview.js:64-69 | a span's stamping throws nothing exactly when both records are there and both moments can be built; a missing record throws `PunchMissing` unless an earlier time zone already threw |
| DayOverview.StampSpan | app/scripts/components/DayOverview/DayOverview.js:64-69 | writes type and then time onto the in-punch, then onto the out-punch; it fails exactly as `SpanError` says, the writes made before the throw are in place, and no other span's records change |
| DayOverview.StampNext | app/scripts/components/DayOverview/DayOverview.js:63-72 | one turn of the map: it fails as `SpanError` says; otherwise span `i` is stamped, its two records follow the earlier ones, its out-punch time zone is carried, and the spans before `i` that were stamped stay stamped |
| DayOverview.StampDay | app/scripts/components/DayOverview/DayOverview.js:63-74 | over the spans of the day: succeeds exactly when every one is readable, and then stamps all of them, emits their records in order and carries the last out-punch time zone (or `""`); otherwise it stops at the first unreadable span with that span's error. It writes only the records of the spans up to and including the one that throws, so the records of every later span are untouched |
| DayOverview.BuildPunchEntries | app/scripts/components/DayOverview/DayOverview.js:59-74 | the filter and then the map: it does what `StampDay` does for the spans of the selected day, writing only the records of the day's spans up to the first that throws |
| DayOverview.MatchingUnshared | app/scripts/components/DayOverview/DayOverview.js:59-62 | the spans the filter keeps share no record when the input spans share none |
| DayOverview.DayEntriesShape | app/scripts/components/DayOverview/DayOverview.js:59-74 | span k of the day contributes entries 2k and 2k+1: `InPunch` at its in-moment, then `OutPunch` at its out-moment |
| DayOverview.StampedRecordsAreEntries | app/scripts/components/DayOverview/DayOverview.js:64-72 | once stamped, the records read back as `InPunch` and `OutPunch` entries at their moments |
| DayOverview.ShiftEntries | app/scripts/components/DayOverview/DayOverview.js:79-89 | a shift's entries fail, with `OffsetNotFound`, exactly when the carried time zone has no offset; otherwise `scheduledIn` at the segment's start and `scheduledOut` at its end |
| DayOverview.ScheduledEntries | app/scripts/components/DayOverview/DayOverview.js:75-91 | fails exactly when some shift matches and the zone has no offset; otherwise two entries per matching shift |
| DayOverview.ScheduledEntriesAreChain | app/scripts/components/DayOverview/DayOverview.js:75-91 | with an offset, the scheduled entries are the filter, then map to the entry pair, then `flatten` of the shifts |
| DayOverview.CarriedZoneHasOffset | app/scripts/components/DayOverview/DayOverview.js:58-91 | after the map over the spans of the day finishes, the carried time zone always yields an offset, so the scheduled entries never throw |
| DayOverview.NoPunchesFallback | app/scripts/components/DayOverview/DayOverview.js:58-86 | with no span on the day the carried zone stays `""` and the scheduled entries use `-07:00` |
| DayOverview.PunchLog | app/scripts/components/DayOverview/DayOverview.js:96-97 | the log holds exactly the scheduled and punch entries, with multiplicity, in time order |
| DayOverview.PunchLogCorrect | app/scripts/components/DayOverview/DayOverview.js:96-97 | among entries at the same instant the scheduled ones come first, each group in its input order |
| DayOverview.DayLogLength | app/scripts/components/DayOverview/DayOverview.js:75-97 | the log has 2 × (matching shifts + spans of the day) entries |
| DayOverview.PunchLogLocalOrder | app/scripts/components/DayOverview/DayOverview.js:96-97 | entries at one offset appear in local date and time order |
| DayOverview.Overview | app/scripts/components/DayOverview/DayOverview.js:56-98 | fails exactly when a span of the day cannot be stamped, with the error of the first such span. After a throw, the records of the day's later spans are untouched. Otherwise the log is the stable time sort of the scheduled entries (carried zone) followed by the punch entries. It writes no record of a span of another day |
| DayOverview.ReachedFrame | app/scripts/components/DayOverview/DayOverview.js:59-74 | the records the render may write are records of the input spans, and none of them is a record of a span of another day |
| DayOverview.ReachedBefore | app/scripts/components/DayOverview/DayOverview.js:63-72 | when span `at` is the first to throw, no record the map reaches belongs to a span after it |
| DayOverview.Field | app/scripts/components/DayOverview/DayOverview.js:157-161 | an attribute is missing exactly when no attribute has that name |
| DayOverview.FieldIsLast | app/scripts/components/DayOverview/DayOverview.js:157-161 | a found attribute value is that of the last attribute of the name |
| DayOverview.PayCodeStats | app/scripts/components/DayOverview/DayOverview.js:157-161 | the amounts of the first pay-code-140 total, or both `""` when there is none |
| DayOverview.StatsOn | app/scripts/components/DayOverview/DayOverview.js:151-161 | the pay-code-140 amounts of the first record of the day, or both `""` when no record is on that day |
| DayOverview.DayStats | app/scripts/components/DayOverview/DayOverview.js:149-161 | for the route date: the pay-code-140 amounts of the first record on its `M/DD/YYYY` text, or both `""` when none is |
| DayOverview.StatsFirstRecordOnly | app/scripts/components/DayOverview/DayOverview.js:152-156 | records after the day's first one never change the stats |
| DayOverview.PayCodeStatsFirstOnly | app/scripts/components/DayOverview/DayOverview.js:157-158 | totals after the first pay-code-140 one are never shown |

## Left out

- HTTP requests, XML decoding, Flummox `registerAsync` wiring, the `async` wrappers and
  `console.log` are framework plumbing or I/O. The model starts from the decoded response.
- React rendering is presentation only. This covers `ClickableDay`, `DayHeader`, `Entry`,
  the layout of the day view, and `PayPeriodOverview`.
- `getExceptionsForDate` is called by the pay-period view but `store.js` never defines it,
  so it is not modelled.
- moment's lenient parsing is not modelled. Text that does not have exactly the shape
  `M/DD/YYYY`, `H:MM`/`HH:mm` or `±HH:MM` is read as an invalid moment or `NaN`.
  - Hours above 23 are `NaN`.
  - Years are limited to 0–9999.
- `isSame(…, 'day')` in the viewer's local time zone is modelled as equality of the
  calendar date written in the punch.
- `_.camelCase` is modelled for ASCII keys:
  - separators `_`, `-` and space are dropped;
  - the letter after a separator is upper-cased;
  - the first character is lower-cased.

  lodash also splits words at case changes (`"ID"` becomes `"id"`), and that is not
  modelled.
- A `Totals.Total` that the XML decoding leaves as one record rather than a list is
  modelled only as a list.
- Parsers.ParseDays: a `DateTotals` left as one record rather than a list is modelled
  only as a list. lodash would map over that record's attribute values (parsers.js:57-58).
  Each value has no `_Date`, so it gives an invalid date that the period filter drops, and
  the day is silently lost.
- Parsers.ExtractPunches: a `TotaledSpan` left as one record rather than a list is
  modelled only as a list. lodash would map over that record's attribute values
  (parsers.js:70-71 and 86-87). No value has an `InPunch.Punch`, `OutPunch.Punch` or
  `Exceptions` path, so the span's punches and exceptions are silently lost.
- DayOverview.Overview: its spans are a list of the day view's `TotaledSpan` records.
  - A missing `Timesheet.TotaledSpans` object makes the source throw a `TypeError` at
    DayOverview.js:59, and that is not modelled.
  - A lone `TotaledSpan` record is not modelled either. underscore's filter would walk the
    record's attribute values, none of which has a `Date`, so the day gets no punch
    entries.
- DayOverview.ScheduledEntries: its shifts are a list of `ScheduleShift` records, each
  with its one segment.
  - A missing `Schedule.ScheduleItems` object makes the source throw a `TypeError` at
    DayOverview.js:75, and that is not modelled. This is the state right after
    `Schedule: {}` (store.js:25), which the store models as `EmptySchedule`, a schedule
    with no shifts.
  - A matching shift without `ShiftSegments.ShiftSegment` makes the source throw a
    `TypeError` at DayOverview.js:80, and that is not modelled.
  - A `ShiftSegment` list, for a shift of several segments, is not modelled.
  - A lone `ScheduleShift` record is not modelled. underscore's filter would walk its
    attribute values, none of which has a `StartDate`, so the day gets no scheduled
    entries.
- DayOverview.Overview: requires that no punch record object is shared, between spans
  or between a span's two sides. The decoded XML payload is a tree, so the source's
  input always meets this. Aliased records are not modelled.
- DayOverview.TimeKey: does not model the order of an invalid moment in the log. It gets
  key 0, whereas underscore's comparator on `NaN` leaves the order to the engine's sort.
- DayOverview.StampDay: after a throw it states which span threw, with what error, and
  that no later span's records were written. It does not state that the spans before
  the throwing one were stamped. StampSpan states the writes made to the throwing span.
- Floating point is replaced by whole hundredths. `_.round` is half-up, and on these
  inputs it never meets a tie.
