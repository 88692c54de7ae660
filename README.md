# Signature history chart: a verified model

This project models the data pipeline behind the signature-history page of a
European Citizens' Initiative tracker (`datahistory.js`). The page receives
a list of snapshots. Each snapshot has a timestamp and, for each member state
in the feed, that state's signature count and the percentage the feed
reports for it. From these the page:

- reshapes the snapshots into one time series per country, plus an EU
  aggregate series. The aggregate's percentage is taken against a fixed one
  million signatures (`SeriesBuilder`);
- turns any series into day-over-day changes (`DailyChanges`);
- compares every country's point on the calendar day of the latest record
  with its points one day and one week earlier. The day is the same for all
  countries, and days are looked up by calendar date, so a missing day gives
  a zero increase rather than an error. It also says how fast each
  increase grew or slowed (`Comparator`);
- ranks the countries by their increase since yesterday, sums the
  increases over all countries and takes the rate changes of those sums
  against the summed previous increases (`Ranking`);
- builds the chart's datasets and axis title and handles the four
  visibility and display buttons (`Presentation`). The chart's mutable state
  is the class `Presentation.ChartView`.

`History` holds the shared data model: timestamps in milliseconds, calendar
days as `Day(ts) = ts / 86400000`, and `Option`. `Countries` holds the
display-name table.

Operations that work by updating state keep that form. `BuildSeries`,
`CalculateDailyChanges` and the button handlers are loops. The ranking sorts
an `array` in place. `ChartView` is a class whose methods reassign its
fields. Each method is proved against a specification function:

- `Group` and `SeriesOf` for the grouping;
- `Changes` for the daily changes;
- `SortDescending` for the stable sort;
- `PrepareDatasets`, `EuOnlyVisibility` and `AllHidden` for the chart.

Lemmas state the promised properties about those functions.

Two edge cases are modelled as the code behaves, not as one might expect:

- **Repeated code in one snapshot.** One might expect the later entry to
  replace the earlier. The code appends both points to the country's
  series, and the model does the same. `OnePointPerMentioningRecord`
  assumes the codes of one snapshot are distinct.
- **Empty history.** The code reads the last record without a guard, and
  the error is caught by the page's single error handler. The model returns
  `None` there.

## Model

| member | source | states |
|---|---|---|
| SeriesBuilder.BuildSeries | datahistory.js:75-104 | the nested loops build exactly `Group(records)`, which is well formed. A country has a series iff some record mentions it, and its series is the record-by-record concatenation of its points. The countries are ordered by where each code first occurs in the records read front to back. The EU series has one point per record, which is that record's `EuPoint` |
| SeriesBuilder.GroupMatchesReference | datahistory.js:78-92 | grouping step by step agrees with the reference definitions: the result is well formed (no repeated code; the order lists exactly the keys), the keys are the mentioned codes, and each series is `SeriesOf` |
| SeriesBuilder.GroupFirstSeen | datahistory.js:82-87 | the countries are ordered by the position of each code's first occurrence among all entry codes read front to back (`FirstIndex` of `Codes`), which with the keys being exactly those codes fixes the order |
| SeriesBuilder.AddEntriesFirstSeen | datahistory.js:82-87 | one snapshot's entries keep the order first-seen relative to the codes read so far |
| SeriesBuilder.FirstSeenSnoc | datahistory.js:84-87 | reading one more code keeps a first-seen order: a new code goes to the end, a known code changes nothing |
| SeriesBuilder.FirstSeenSnocSeen | datahistory.js:84 | a code already seen leaves the order first-seen |
| SeriesBuilder.FirstSeenSnocNew | datahistory.js:84-85 | a new code appended at the end keeps the order first-seen |
| SeriesBuilder.FirstIndexSnoc | datahistory.js:84 | reading one more code does not move the first occurrence of a code already read |
| SeriesBuilder.FirstIndex | datahistory.js:84 | the position found holds the code and no earlier position does |
| SeriesBuilder.MentionsSnoc | datahistory.js:78-82 | a code is mentioned by the records iff it is mentioned before the last record or by the last record |
| SeriesBuilder.AddPointAppends | datahistory.js:84-92 | one entry appends its point to its own country's series (starting it if new) and leaves every other series unchanged |
| SeriesBuilder.AddEntriesAppends | datahistory.js:82-92 | processing one snapshot keeps the series well formed, adds exactly the codes the snapshot mentions, and appends to each country exactly that snapshot's points for it |
| SeriesBuilder.AddEntriesKeys | datahistory.js:84-87 | a snapshot's entries create a series exactly for the codes not yet seen that the snapshot mentions |
| SeriesBuilder.AddEntriesValid | datahistory.js:84-87 | the first-seen order stays free of repeats and names exactly the dictionary's keys |
| SeriesBuilder.AddEntriesSeries | datahistory.js:88-92 | each country's series grows by exactly the snapshot's points for it, in entry order |
| SeriesBuilder.SeriesOfEmptyUnlessMentioned | datahistory.js:84-92 | a country that no record mentions gets no points |
| SeriesBuilder.PointsForEmptyUnlessPresent | datahistory.js:82-92 | a snapshot without the code contributes no point to that country |
| SeriesBuilder.PointsForSingle | datahistory.js:82-92 | in a snapshot without repeated codes, a country gets exactly one point if mentioned and none otherwise, stamped with the snapshot's time |
| SeriesBuilder.OnePointPerMentioningRecord | datahistory.js:78-92 | without repeated codes, a country's series has one point per record that mentions it, with that record's timestamp, in record order; absent records are not zero-filled |
| SeriesBuilder.SeriesBoundedBy | datahistory.js:88-92 | no point of a series is later than the latest record |
| SeriesBuilder.PointsForStamped | datahistory.js:88-92 | every point a snapshot contributes carries the snapshot's timestamp |
| SeriesBuilder.SeriesInTimeOrder | datahistory.js:73-92 | records sorted by time give every country a series in time order |
| SeriesBuilder.EuPoint | datahistory.js:94-103 | the EU point carries the snapshot's timestamp and the sum of its counts, and its percentage is that sum over one million, times 100 |
| SeriesBuilder.TotalCountIgnoresPercentages | datahistory.js:95-96 | the EU count depends only on the entries' counts |
| SeriesBuilder.EuPointIgnoresPercentages | datahistory.js:95-102 | the EU point does not depend on the per-country percentages at all |
| DailyChanges.Changes | datahistory.js:107-119 | one change per pair of neighbours (none for fewer than two points); each has the later point's timestamp and the differences of count and percentage |
| DailyChanges.CalculateDailyChanges | datahistory.js:107-119 | the index loop returns exactly `Changes` of its input |
| DailyChanges.LastChange | datahistory.js:109-117 | the last change is the change into the last point |
| DailyChanges.ChangesTelescope | datahistory.js:107-119 | the changes undo into the series: the first point plus the first k changes is the k-th point, for count and percentage |
| DailyChanges.NonDecreasingHasNoNegativeChange | datahistory.js:114 | a series whose count never falls has no negative daily count change |
| Countries.DisplayName | datahistory.js:4-32 | a code in the 27-entry table shows its non-empty name; any other code shows itself |
| Comparator.FindOnDay | datahistory.js:309-313 | the lookup is absent iff no point falls on that calendar day; otherwise it is the first such point |
| Comparator.RateChange | datahistory.js:323-324 | 0 when the previous increase is 0; otherwise the percentage by which the increase exceeds the previous one, whose sign says whether it grew |
| Comparator.Unranked | datahistory.js:307-336 | one comparison per country, in first-seen order |
| Comparator.MissingTodayGivesZero | datahistory.js:309-318 | a country with no point on the latest record's day, such as one missing from the last record, gets zero increases and zero percentage increases from yesterday and from last week, rather than failing |
| Comparator.MissingYesterdayGivesZero | datahistory.js:315-323 | no point yesterday gives zero increase, zero percentage increase, zero previous-day increase and zero rate change from yesterday |
| Comparator.MissingLastWeekGivesZero | datahistory.js:316-324 | no point a week ago gives zero increase, zero percentage increase, zero previous-week increase and zero rate change from last week |
| Comparator.IncreaseFromYesterdayOfFoundPoints | datahistory.js:315-317 | the increases from yesterday are the differences between the two looked-up points |
| Comparator.MissingDayBeforeYesterdayGivesZero | datahistory.js:320-323 | no point two days ago gives a zero previous-day increase and a zero rate change from yesterday |
| Comparator.MissingWeekBeforeLastGivesZero | datahistory.js:321-324 | no point two weeks ago gives a zero previous-week increase and a zero rate change from last week |
| Comparator.IncreaseFromLastWeekOfFoundPoints | datahistory.js:316-318 | the increases from last week are the differences between today's and last week's looked-up points |
| Comparator.CountryIncreaseOfFoundPoints | datahistory.js:308-335 | with a point found on each of the five days, all eight fields of a country's comparison follow from those points: code, display name, the four increases as differences against today, and the two rate changes against the increases of the day and week before |
| Comparator.FindLastTwoDays | datahistory.js:309-310 | when a series ends with one point on yesterday and one on today, the lookups find those two points |
| Comparator.LastTwoPointsGiveLastChange | datahistory.js:315-317 | the differences between the last two points are the series' last daily change |
| Comparator.YesterdayIncreaseIsLastDailyChange | datahistory.js:309-317 | for such a series, the increase from yesterday equals the last daily change the chart plots |
| Ranking.SortByIncreaseFromYesterday | datahistory.js:338 | the in-place sort leaves the array as `SortDescending` of its old contents |
| Ranking.InsertLast | datahistory.js:338 | one insertion step moves the next element into the sorted prefix and leaves the rest alone |
| Ranking.InsertPosition | datahistory.js:338 | an element goes right after the last element whose key is at least its own |
| Ranking.SortDescendingSnoc | datahistory.js:338 | sorting one more element is inserting it into the sorted rest |
| Ranking.InsertDescendingPermutes | datahistory.js:338 | insertion adds exactly the inserted element |
| Ranking.InsertDescendingSorted | datahistory.js:338 | insertion keeps a descending sequence descending |
| Ranking.InsertDescendingStable | datahistory.js:338 | insertion keeps equal keys in their order and puts the new element last among them |
| Ranking.InsertDescendingSum | datahistory.js:340-341 | insertion adds the new element to any total |
| Ranking.SortDescendingSorted | datahistory.js:338 | the ranking is descending by increase from yesterday |
| Ranking.SortDescendingPermutes | datahistory.js:338 | the ranking is a permutation of the countries |
| Ranking.SortDescendingStable | datahistory.js:338 | countries with equal increases keep their first-seen order |
| Ranking.SortDescendingKeepsSum | datahistory.js:340-355 | any total over the countries is the same before and after ranking |
| Ranking.PreviousIncreasesMatchCountryRates | datahistory.js:343-355 | the totals' second lookups of each country's previous-day and previous-week increase find the values that country's own rate changes were computed from |
| Ranking.CalculateIncreases | datahistory.js:296-358 | given the records sorted by time and the grouping built from them (lines 73-104), no records gives no report. Otherwise the list is the sorted, stable permutation of the per-country comparisons. The totals are the per-country sums, and the total rate changes are rate changes of those sums against the previous day's and previous week's sums |
| Presentation.YAxisTitle | datahistory.js:122-128 | the title starts with "Daily " exactly in daily-change mode |
| Presentation.YAxisTitleDistinguishesModes | datahistory.js:122-128 | the four switch settings have four different titles |
| Presentation.Shown | datahistory.js:133 | a dataset's source is the series itself, or one change fewer in daily mode |
| Presentation.Plot | datahistory.js:136-139 | one chart point per series point, at its time, with its percentage or count |
| Presentation.CountryDatasets | datahistory.js:131-148 | one dataset per country, in first-seen order |
| Presentation.PrepareDatasets | datahistory.js:130-166 | the EU dataset comes first, captioned "EU Total" and hidden. Then come the countries in first-seen order, each shown and captioned with its display name, each plotting its series or its daily changes |
| Presentation.PlottedValues | datahistory.js:133-139 | in daily mode the k-th value is the change into the (k+1)-th point; otherwise it is the k-th point's value |
| Presentation.EuOnlyVisibility | datahistory.js:265-279 | EU-only shows only the first dataset; otherwise every dataset but the first is shown; captions and data are untouched |
| Presentation.AllHidden | datahistory.js:249-261 | every dataset gets the same visibility, with captions and data untouched |
| Presentation.EuOnlyToggleTwice | datahistory.js:265-280 | pressing the EU-only switch twice more returns to the same view |
| Presentation.RebuiltDatasetsShowCountriesOnly | datahistory.js:130-166 | freshly built datasets already show "countries only", so after a rebuild with the EU-only flag set, the next switch press changes nothing on screen |
| Presentation.ChartView.constructor | datahistory.js:169-191 | the first chart shows counts, cumulative, with the prepared datasets and matching title, not EU-only. It establishes `Valid`: every dataset has the caption and data the current switches prepare, under the matching title |
| Presentation.ChartView.SelectAll | datahistory.js:249-254 | every dataset becomes shown; nothing else changes, so the chart still plots the current mode (`Valid`) |
| Presentation.ChartView.ApplyAllHidden | datahistory.js:250-252 | the loop gives every dataset the same visibility and changes nothing else |
| Presentation.ChartView.DeselectAll | datahistory.js:258-263 | every dataset becomes hidden; nothing else changes, so the chart still plots the current mode (`Valid`) |
| Presentation.ChartView.ToggleEUOnly | datahistory.js:265-280 | the flag flips and the datasets take the visibility of the new flag; captions and data still match the current mode (`Valid`) |
| Presentation.ChartView.ApplyEuOnlyVisibility | datahistory.js:266-276 | the loop of either branch: only index 0 shown, or all but index 0, with nothing else changed |
| Presentation.ChartView.SwitchYAxis | datahistory.js:282-287 | the axis flips, the datasets are rebuilt and the title is recomputed, so the chart plots the new mode (`Valid`); the EU-only flag is left as it was |
| Presentation.ChartView.ToggleDailyChange | datahistory.js:289-294 | the daily mode flips, the datasets are rebuilt and the title is recomputed, so the chart plots the new mode (`Valid`); the EU-only flag is left as it was |

## Left out

- Fetching the history, parsing JSON and the page's single error handler (lines 68-70, 390) are I/O. `CalculateIncreases` returns `None` where the code would throw.
- The sort of the records by timestamp (line 73) is taken as given; `SeriesInTimeOrder` states what it buys.
- Date parsing, local time zones and daylight-saving time are not modelled. A timestamp is an integer count of milliseconds, and a calendar day is that count divided by 86,400,000, so "n days before" is day − n. The code compares `toDateString()` renderings; the model compares these day numbers.
- Floating-point arithmetic is not modelled. Counts are integers and percentages are exact reals, so rounding and `toFixed` formatting are out.
- The styling fields of a dataset (colours, `borderWidth`, `tension`, `pointRadius`, lines 140-163) are cosmetic; the country colours are also nondeterministic (`getRandomColor`, lines 86 and 395-402).
- Chart.js itself, `chart.update()`, zoom and the reset-zoom handler are not modelled; `ChartView` keeps only the datasets, the switches and the title.
- The HTML of the ranked list and the country flags table (lines 34-62, 360 onward) are presentation only.
- The per-snapshot `euTotalPercentage` sum (lines 80, 96) is computed and never used. It appears only as `TotalPercentage`.
- Codes that collide with names inherited by a JavaScript object (such as `constructor`) are not modelled. The model treats the dictionary as a plain map.
- Codes are taken not to be array-index strings such as "0" or "12". `Object.keys` lists those first, in numeric order, before the other keys in insertion order. The model's `order` is pure insertion order, which is the key order for every code that is not an array index, two-letter country codes included.
- A cross-check one might expect, that the summed per-country increases match the EU series' own daily change, is not computed by the code and is not proved.
