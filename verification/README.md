# Bike counter bar chart — a Dafny model of its aggregation and helpers

The bar chart (`src/js/barchart.js`) fetches a month of hourly Fremont Bridge
bike-counter records and draws riders per hour of the day. Its pure logic is
modelled here:

- `processBikeData`, the fold that turns records into 24 per-hour totals,
  7 per-weekday totals, a ride total, and a "busiest date" with its count;
- `formatUrl` and `padMonth`, which build the query's date range;
- `getColorBand`, which puts a bar in the low, medium or high band;
- the busiest-weekday scan in the fetch callback, and `day2String`.

Records arrive already decoded. `nb` and `sb` are `Option<int>` and stand for
the two `parseInt` results, `None` being `NaN`. `hour`, `weekday` and
`dayOfMonth` stand for `getUTCHours`, `getUTCDay` and `getUTCDate`. A `Stamp`,
a point in time in milliseconds, stands for the `Date`. For counts below 2^53, `isNaN(hourlyTotal)` is
never true once both counts parse, so a record is valid exactly when both
counts are present.

Modules:

- `BikeData` holds the fold. `Fold` recurses on the last record and carries an
  explicit loop state: the output, `previousDay` (0 is the "no day yet"
  sentinel) and `dailyTotal`.
- `Aggregates` gives an independent meaning to each slot, as sums over valid
  records. It also shows that invalid records change nothing.
- `DayGroups` splits the valid records into maximal same-day runs. It shows
  that the busiest date and count are the first strict maximum over the
  *closed* groups, that is, every group but the last. The date is that of the
  record opening the next group.
- `BusiestRules` proves the step-by-step rules and the never-judged last day.
  `Scenario` works through a 24-hour day followed by the next day's first record.
- `BusiestFixed` is the corrected statistic (see Findings).
- `Argmax`, `Weekday`, `ColorBand`, `QueryUrl`, `Decimal` and `Sums` cover the
  helpers. `Decimal` models JavaScript's number-to-string on integers.

Two behaviours of the code are worth stating plainly:

- Line 130 shows `busiestDate` as the single busiest day, next to
  `busiestDateCount`. But line 352 stores the `Date` of the record that opens
  the next day, while the count is the previous day's total.
  `Scenario.MondayThenTuesday` shows this on a concrete input.
- `parseInt` accepts negative counts and the code does not reject them. So the
  slots are non-negative only under `Aggregates.NonNegativeCounts`'
  precondition, that no count is negative.

## Model

| member | source | states |
|---|---|---|
| BikeData.ProcessBikeData | src/js/barchart.js:311-326 | The output always has exactly 24 hour slots and 7 weekday slots. The busiest count is never negative. The busiest date is null exactly when the count is 0. |
| BikeData.Fold | src/js/barchart.js:328-364 | Loop invariants after any records: 24 and 7 slots, count at least 0, date null iff count 0, and `previousDay` stays at the sentinel 0 iff no valid record has been seen. |
| BikeData.CloseDay | src/js/barchart.js:351-354 | Judging a closed day never lowers the busiest count and leaves slots and ride total alone. |
| BikeData.Step | src/js/barchart.js:333-363 | One iteration. A record whose count does not parse leaves the state unchanged. A valid record makes its day the current one and adds nb+sb to the ride total, to its UTC hour's slot and to its weekday's slot; the busiest count never drops. Over a whole input the slots mean `SlotsAreSums` and the busiest fields mean `FoldTracksGroups`. |
| Aggregates.ValidRecords | src/js/barchart.js:340-343 | The records kept are exactly the input records whose two counts both parse. One record is kept iff it is valid, an all-valid input is kept whole, and an all-invalid input leaves nothing. With `ValidRecordsAppend` this fixes order and multiplicity. |
| Aggregates.ValidRecordsAppend | src/js/barchart.js:340-343 | Filtering commutes with concatenation: the records kept from `a + b` are those kept from `a` followed by those kept from `b`. |
| Aggregates.FoldSeesOnlyValid | src/js/barchart.js:340-343 | The whole loop state, including `previousDay` and `dailyTotal`, equals that of the valid records alone. |
| Aggregates.InvalidRecordIgnored | src/js/barchart.js:340-343 | Inserting a record with an unparsable count anywhere leaves the output identical to the input without it. |
| Aggregates.SlotsAreSums | src/js/barchart.js:359-363 | Each hour slot is the riders of exactly the valid records of that UTC hour. Each weekday slot is those of that weekday. The ride total is those of all valid records. |
| Aggregates.TotalsAgree | src/js/barchart.js:359-363 | Sum of hour slots = ride total = sum of weekday slots, for every input. |
| Aggregates.EmptyInput | src/js/barchart.js:313-326 | With no records, all slots and the total are 0, the busiest date is null and its count is 0. |
| Aggregates.NonNegativeCounts | src/js/barchart.js:336-338 | When no valid record has a negative count, no slot and no total is negative. |
| DayGroups.Groups | src/js/barchart.js:345-357 | The valid records split into non-empty runs that each share a day of the month. Consecutive runs differ in day. Concatenated, the runs give back the records. |
| DayGroups.ClosedDays | src/js/barchart.js:349-357 | Closed day j is group j's total paired with the date of group j+1's first record. There is one fewer closed day than groups. |
| DayGroups.FoldTracksGroups | src/js/barchart.js:328-364 | After valid records, `previousDay` is the last record's day and `dailyTotal` is the last group's total. Busiest count and date are the first strict maximum over the closed days. |
| DayGroups.BusiestDateIsFirstBestClosedDay | src/js/barchart.js:345-357 | For any input, the count bounds every closed day's total. There is no date iff no closed day is positive. Otherwise the date is the opener of the first closed day reaching the count. |
| DayGroups.OneDayIsOneGroup | src/js/barchart.js:349 | Records that all share one day form a single group. |
| BusiestRules.BusiestChangesOnlyAtBoundary | src/js/barchart.js:345-357 | One more record changes the busiest statistic iff it is valid, a day is under way, its day differs, and that day's total beats the count strictly. The new count is that day's total and the new date is the new record's own date. |
| BusiestRules.BusiestCountNeverDecreases | src/js/barchart.js:349-354 | The busiest count after a prefix never exceeds the count after the whole input. |
| BusiestRules.LastDayNeverJudged | src/js/barchart.js:345-366 | If all valid records share one day, the busiest date stays null and the count 0, whatever that day's total. |
| BusiestRules.DayClosedByNextRecord | src/js/barchart.js:349-354 | A positive day followed by one record of another day is reported with the day's total, but dated at the following record. |
| Scenario.MondayThenTuesday | src/js/barchart.js:331-364 | 24 hours of 1+1 riders, then Tuesday's first record (3+4). Count 48, date Tuesday's record, total 55. Hour 0 holds 9 and every other hour 2. Weekday slots [0,48,7,0,0,0,0]. |
| Scenario.MondayAloneHasNoBusiestDate | src/js/barchart.js:345-357 | The 48-rider Monday alone yields no busiest date and count 0. |
| BusiestFixed.ProcessBikeDataFixed | src/js/barchart.js:345-357 | The corrected output has the chart's shape: 24 and 7 slots, a count of at least 0, and no date exactly when the count is 0. Its busiest statistic means `FixedBusiestIsBestDay` and its slots mean `FixedKeepsSlots`. |
| BusiestFixed.FixedJudgesAllGroups | src/js/barchart.js:345-357 | The corrected loop, which judges the last group too, yields the first strict maximum over all groups, each dated at its own first record. |
| BusiestFixed.FixedBusiestIsBestDay | src/js/barchart.js:345-357 | Corrected: the count bounds every day group's total, last included. There is no date iff no group is positive. Otherwise the date is the first record of the first group reaching the count. |
| BusiestFixed.FixedKeepsSlots | src/js/barchart.js:359-363 | The correction leaves hour slots, weekday slots and ride total exactly as the chart computes them. |
| BusiestFixed.FixedDayThenNext | src/js/barchart.js:349-354 | Corrected: a positive day followed by a smaller record of another day is reported with the day's own first date. |
| Scenario.FixedMondayAlone | src/js/barchart.js:345-357 | Corrected: Monday alone is the busiest day, with count 48, dated at Monday 00:00. |
| Scenario.FixedMondayThenTuesday | src/js/barchart.js:349-354 | Corrected: with Tuesday's first record appended, Monday stays busiest (48), dated at Monday 00:00. |
| Argmax.FirstStrictMax | src/js/barchart.js:132-139 | The scan's maximum is at least 0 and bounds every element. With an index, it is the lowest position holding that positive maximum. With no index, no element is positive. |
| Argmax.FirstStrictMaxUnique | src/js/barchart.js:132-139 | The scan's result is the one and only pick meeting that declarative description. |
| Weekday.BusiestWeekday | src/js/barchart.js:132-139 | The busiest weekday is the first strict maximum of the weekday totals, undefined when none is positive. |
| Weekday.Day2String | src/js/barchart.js:470-498 | The result is "Unknown" exactly for undefined or a number outside 0..6. Weekdays 0..6 get "Sunday" .. "Saturday" in that order, the `getUTCDay` numbering, each ending in "day". |
| Weekday.Day2StringInjective | src/js/barchart.js:470-498 | Different weekdays 0..6 get different names. |
| Weekday.BusiestWeekdayText | src/js/barchart.js:132-142 | With no positive total the text is "Unknown (0)". With 7 totals and a positive one, it is a weekday's name followed by that weekday's own total. For every pick meeting the first-strict-maximum description, the text is that pick's weekday name and maximum, so it names the weekday the scan chose. |
| ColorBand.GetColorBand | src/js/barchart.js:294-304 | The band is low iff value ≤ max/3, medium iff max/3 < value ≤ (max/3)·2, and high otherwise (over exact reals). The three cases are disjoint and cover every input. |
| ColorBand.ClassName | src/js/barchart.js:298-302 | Each band's class is one non-empty lower-case word, a single CSS class token. |
| ColorBand.ClassOfBar | src/js/barchart.js:294-304 | The class string a bar gets is "low" iff value ≤ max/3, "medium" iff max/3 < value ≤ (max/3)·2, and "high" iff value exceeds both (over exact reals). |
| ColorBand.ClassNamesDistinct | src/js/barchart.js:298-302 | Different bands get different class names, so a bar's class tells its band. |
| ColorBand.BandMonotone | src/js/barchart.js:294-304 | A larger value never lands in a lower band. |
| ColorBand.ExtremesOfPositiveMax | src/js/barchart.js:294-304 | With a positive maximum the tallest bar is high and an empty bar is low. |
| QueryUrl.PadMonth | src/js/barchart.js:431-438 | The result starts with '0' exactly when month < 10. For 0..99 it is two digits that read back as the month. |
| QueryUrl.FirstOfMonthParses | src/js/barchart.js:378 | `year-MM-01` for a real month reads back as (year, month, 1), for every integer year, negative ones included. |
| QueryUrl.QueryRange | src/js/barchart.js:378-386 | The end date is the first of the following month, and the first of January of the next year after December. Both dates hold only digits and '-'. |
| QueryUrl.DecemberRollsOver | src/js/barchart.js:382-383 | December's end date is the first of January of the next year. |
| QueryUrl.QueryRangeIsOneMonth | src/js/barchart.js:376-386 | For month 1..12 and every integer year, the start reads back as the first of that month. The end is day 1 of a valid month exactly one calendar month later. |
| QueryUrl.FormatUrl | src/js/barchart.js:376-393 | Parsing the URL back out of the `$where` template gives exactly the date range built for that month and year, for every integer month and year. |
| Decimal.NatToString | src/js/barchart.js:378 | Decimal spelling: non-empty digits with no leading zero; 1 digit iff below 10, 2 iff 10..99. |
| Decimal.IntToString | src/js/barchart.js:378 | Negative numbers start with '-' and non-negatives are all digits. Only digits and '-' ever occur. |
| Decimal.NatToStringRoundTrip | src/js/barchart.js:437 | Reading the decimal spelling back gives the number. |
| Decimal.IntToStringRoundTrip | src/js/barchart.js:378 | Reading a signed decimal spelling back gives the integer, negative ones included. |

## Findings

| source | as written | input that shows it | evidently intended | confidence | as-written member | corrected member |
|---|---|---|---|---|---|---|
| src/js/barchart.js:345-357 | A day group is judged only when a later valid record starts another day, so the last group is never compared. | 24 hourly records of one day with 1+1 riders: `busiestDate` stays null and the count 0, despite 48 riders. | Every day group, the last included, competes for busiest. | not executed | Scenario.MondayAloneHasNoBusiestDate | BusiestFixed.FixedBusiestIsBestDay |
| src/js/barchart.js:349-354 | When a group wins, `busiestDate` is set to the `Date` of the record that opens the next day. | Monday's 24 records (48 riders), then Tuesday 00:00 (7 riders): the chart reports Tuesday 00:00 with Monday's 48. | The date of the winning day itself. | not executed | Scenario.MondayThenTuesday | BusiestFixed.FixedDayThenNext |

`BikeData.ProcessBikeData` keeps the code's behaviour as written.
`BusiestFixed.ProcessBikeDataFixed` tracks the opener of each day group and
judges the last group after the loop. Its slots and ride total are proved equal
to the chart's.

## Left out

- `server.js` and `Gruntfile.js` are left out: static file serving and build configuration, with no logic of the core.
- `fetchData` is only partly modelled: its delayed `$.get`, the fail and always handlers, the loader, and the "no data" and error messages are network and DOM I/O. Only its weekday scan and the weekday text are modelled. The text written for the busiest date (`busiestDate.toUTCString()`) is not modelled. When that date is null, the call throws and the catch handler shows an error message.
- `init`, `selectChanged`, `showMessage` and `hideMessage` are DOM wiring, including reading the selected month and year.
- `renderGraph` and `updateData` are D3 and SVG presentation. Their y-axis headroom (`domainMax * 0.1`) is floating point.
- `generateTestData` and `random` depend on `Math.random`.
- `Date` parsing, `toUTCString` and `parseInt` string semantics are not modelled. Records carry their decoded calendar fields and counts instead.
- JavaScript numbers are IEEE doubles. The model uses unbounded integers, which agree with doubles below 2^53. A count of more than about 309 digits parses to ±Infinity, and Infinity + (−Infinity) is NaN, so the source skips a record the model keeps.
- The `console.warn` diagnostic for a skipped record (barchart.js:341) is console output and is not modelled; the skip itself is.
- `String.prototype.replace` is modelled as splicing the two dates into the `$where` template. Each placeholder occurs once in the template, and the dates hold only digits and '-'. So the special `$` replacement patterns never arise.
- `ColorBand.GetColorBand`: compares exactly, as `3*value` against `max` and `2*max`. The source's floating-point `max/3` and `third*2` could round differently at the exact boundaries.
- `Weekday.Day2String`: takes `Option<int>`, where `None` stands for `undefined`. The source accepts any JavaScript value; every non-number falls through to "Unknown" as `None` does.
