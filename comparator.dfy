/** The per-country interval comparison: increases since yesterday and since
    last week, and how fast those increases changed, from calendar-day
    lookups into each country's series. */
module Comparator {
  import opened History
  import opened SeriesBuilder
  import opened Countries
  import DailyChanges

  /** The first point of `points` that falls on calendar day `day`. */
  function FindOnDay(points: seq<SeriesPoint>, day: int): (r: Option<SeriesPoint>)
    ensures r.None? <==> forall k :: 0 <= k < |points| ==> Day(points[k].timestamp) != day
    ensures r.Some? ==> r.value in points && Day(r.value.timestamp) == day
    ensures forall j :: 0 <= j < |points| && Day(points[j].timestamp) == day
                        && (forall i :: 0 <= i < j ==> Day(points[i].timestamp) != day)
                        ==> r == Some(points[j])
  {
    if points == [] then None
    else if Day(points[0].timestamp) == day then Some(points[0])
    else
      var r := FindOnDay(points[1..], day);
      assert forall j :: 1 <= j < |points| ==> points[j] == points[1..][j - 1];
      r
  }

  /** The five lookups: today, yesterday, the day before yesterday, a week
      ago and two weeks ago, counted in calendar days from `today`. */
  datatype DayLookups = DayLookups(
    today: Option<SeriesPoint>,
    yesterday: Option<SeriesPoint>,
    dayBeforeYesterday: Option<SeriesPoint>,
    lastWeek: Option<SeriesPoint>,
    weekBeforeLast: Option<SeriesPoint>)

  function LookUpDays(points: seq<SeriesPoint>, today: int): DayLookups
  {
    DayLookups(
      FindOnDay(points, today),
      FindOnDay(points, today - 1),
      FindOnDay(points, today - 2),
      FindOnDay(points, today - 7),
      FindOnDay(points, today - 14))
  }

  /** The count gained between two looked-up points; 0 when either is missing. */
  function CountIncrease(later: Option<SeriesPoint>, earlier: Option<SeriesPoint>): int
  {
    if later.Some? && earlier.Some? then later.value.totalCount - earlier.value.totalCount else 0
  }

  /** The percentage gained between two looked-up points; 0 when either is missing. */
  function PercentageIncrease(later: Option<SeriesPoint>, earlier: Option<SeriesPoint>): real
  {
    if later.Some? && earlier.Some? then later.value.percentage - earlier.value.percentage else 0.0
  }

  /** How much faster (positive) or slower (negative) `increase` is than
      `previous`, in percent of `previous`; 0 when `previous` is 0. */
  function RateChange(increase: int, previous: int): (r: real)
    ensures previous == 0 ==> r == 0.0
    ensures previous != 0 ==> r * (previous as real) == ((increase - previous) as real) * 100.0
    ensures previous > 0 ==> (r >= 0.0 <==> increase >= previous)
    ensures previous < 0 ==> (r >= 0.0 <==> increase <= previous)
  {
    if previous != 0 then
      var p := previous as real;
      var d := (increase - previous) as real;
      assert (d / p) * 100.0 * p == d * 100.0;
      assert previous > 0 ==> (d / p >= 0.0 <==> d >= 0.0);
      assert previous < 0 ==> (d / p >= 0.0 <==> d <= 0.0);
      (d / p) * 100.0
    else 0.0
  }

  /** One country's line of the ranked list. */
  datatype Increase = Increase(
    countryCode: CountryCode,
    countryName: string,
    increaseFromYesterday: int,
    increaseFromLastWeek: int,
    percentageIncreaseFromYesterday: real,
    percentageIncreaseFromLastWeek: real,
    rateChangeFromYesterday: real,
    rateChangeFromLastWeek: real)

  /** The increase of the day before: yesterday against the day before yesterday. */
  function PreviousDayIncrease(l: DayLookups): int
  {
    CountIncrease(l.yesterday, l.dayBeforeYesterday)
  }

  /** The increase of the week before: last week against the week before last. */
  function PreviousWeekIncrease(l: DayLookups): int
  {
    CountIncrease(l.lastWeek, l.weekBeforeLast)
  }

  /** A country's comparison, from the five looked-up days of its series. */
  function CountryIncrease(code: CountryCode, points: seq<SeriesPoint>, today: int): Increase
  {
    IncreaseFromLookups(code, LookUpDays(points, today))
  }

  function IncreaseFromLookups(code: CountryCode, l: DayLookups): Increase
  {
    var increaseFromYesterday := CountIncrease(l.today, l.yesterday);
    var increaseFromLastWeek := CountIncrease(l.today, l.lastWeek);
    Increase(
      code,
      DisplayName(code),
      increaseFromYesterday,
      increaseFromLastWeek,
      PercentageIncrease(l.today, l.yesterday),
      PercentageIncrease(l.today, l.lastWeek),
      RateChange(increaseFromYesterday, PreviousDayIncrease(l)),
      RateChange(increaseFromLastWeek, PreviousWeekIncrease(l)))
  }

  /** The comparisons of all countries, in the order the countries were
      first seen, every one counted from the same `today`. */
  function Unranked(cs: CountrySeries, today: int): (r: seq<Increase>)
    requires cs.Valid()
    ensures |r| == |cs.order|
    ensures forall i :: 0 <= i < |r| ==> r[i].countryCode == cs.order[i]
  {
    seq(|cs.order|, i requires 0 <= i < |cs.order| => CountryIncrease(cs.order[i], cs.series[cs.order[i]], today))
  }

  // ---------------------------------------------------------------------
  // Properties

  /** A country with no point on `today`, such as one that dropped out of
      the latest record, shows no increase from yesterday or from last week
      rather than failing. */
  lemma MissingTodayGivesZero(code: CountryCode, points: seq<SeriesPoint>, today: int)
    requires forall k :: 0 <= k < |points| ==> Day(points[k].timestamp) != today
    ensures CountryIncrease(code, points, today).increaseFromYesterday == 0
    ensures CountryIncrease(code, points, today).increaseFromLastWeek == 0
    ensures CountryIncrease(code, points, today).percentageIncreaseFromYesterday == 0.0
    ensures CountryIncrease(code, points, today).percentageIncreaseFromLastWeek == 0.0
  {
  }

  /** A country with no point on the day before `today` shows no increase
      from yesterday and no rate change from yesterday, rather than failing. */
  lemma MissingYesterdayGivesZero(code: CountryCode, points: seq<SeriesPoint>, today: int)
    requires forall k :: 0 <= k < |points| ==> Day(points[k].timestamp) != today - 1
    ensures CountryIncrease(code, points, today).increaseFromYesterday == 0
    ensures CountryIncrease(code, points, today).percentageIncreaseFromYesterday == 0.0
    ensures PreviousDayIncrease(LookUpDays(points, today)) == 0
    ensures CountryIncrease(code, points, today).rateChangeFromYesterday == 0.0
  {
  }

  /** Likewise for a week ago: no point on that day means no increase from
      last week and no rate change from last week. */
  lemma MissingLastWeekGivesZero(code: CountryCode, points: seq<SeriesPoint>, today: int)
    requires forall k :: 0 <= k < |points| ==> Day(points[k].timestamp) != today - 7
    ensures CountryIncrease(code, points, today).increaseFromLastWeek == 0
    ensures CountryIncrease(code, points, today).percentageIncreaseFromLastWeek == 0.0
    ensures PreviousWeekIncrease(LookUpDays(points, today)) == 0
    ensures CountryIncrease(code, points, today).rateChangeFromLastWeek == 0.0
  {
  }

  /** The increase from yesterday of a country is the count gained between
      its first points on `today` and on the day before. */
  lemma IncreaseFromYesterdayOfFoundPoints(code: CountryCode, points: seq<SeriesPoint>, today: int,
                                           p: SeriesPoint, q: SeriesPoint)
    requires FindOnDay(points, today) == Some(p)
    requires FindOnDay(points, today - 1) == Some(q)
    ensures CountryIncrease(code, points, today).increaseFromYesterday == p.totalCount - q.totalCount
    ensures CountryIncrease(code, points, today).percentageIncreaseFromYesterday == p.percentage - q.percentage
  {
  }

  /** A country with no point two days before `today` has no increase of
      the day before, so its rate change from yesterday is 0. */
  lemma MissingDayBeforeYesterdayGivesZero(code: CountryCode, points: seq<SeriesPoint>, today: int)
    requires forall k :: 0 <= k < |points| ==> Day(points[k].timestamp) != today - 2
    ensures PreviousDayIncrease(LookUpDays(points, today)) == 0
    ensures CountryIncrease(code, points, today).rateChangeFromYesterday == 0.0
  {
  }

  /** A country with no point two weeks before `today` has no increase of
      the week before, so its rate change from last week is 0. */
  lemma MissingWeekBeforeLastGivesZero(code: CountryCode, points: seq<SeriesPoint>, today: int)
    requires forall k :: 0 <= k < |points| ==> Day(points[k].timestamp) != today - 14
    ensures PreviousWeekIncrease(LookUpDays(points, today)) == 0
    ensures CountryIncrease(code, points, today).rateChangeFromLastWeek == 0.0
  {
  }

  /** The increase from last week of a country is the count gained between
      its first points on `today` and a week before. */
  lemma IncreaseFromLastWeekOfFoundPoints(code: CountryCode, points: seq<SeriesPoint>, today: int,
                                          p: SeriesPoint, w: SeriesPoint)
    requires FindOnDay(points, today) == Some(p)
    requires FindOnDay(points, today - 7) == Some(w)
    ensures CountryIncrease(code, points, today).increaseFromLastWeek == p.totalCount - w.totalCount
    ensures CountryIncrease(code, points, today).percentageIncreaseFromLastWeek == p.percentage - w.percentage
  {
  }

  /** The comparison `r` of country `code` whose points today, yesterday,
      the day before yesterday, a week ago and two weeks ago are `t`, `y`,
      `dby`, `w` and `wbl`: the increases are differences against today's
      point, and the rate changes compare them with the increases of the
      day and the week before. */
  predicate IncreaseOfPoints(r: Increase, code: CountryCode, t: SeriesPoint, y: SeriesPoint,
                             dby: SeriesPoint, w: SeriesPoint, wbl: SeriesPoint)
  {
    && r.countryCode == code
    && r.countryName == DisplayName(code)
    && r.increaseFromYesterday == t.totalCount - y.totalCount
    && r.increaseFromLastWeek == t.totalCount - w.totalCount
    && r.percentageIncreaseFromYesterday == t.percentage - y.percentage
    && r.percentageIncreaseFromLastWeek == t.percentage - w.percentage
    && r.rateChangeFromYesterday
       == RateChange(t.totalCount - y.totalCount, y.totalCount - dby.totalCount)
    && r.rateChangeFromLastWeek
       == RateChange(t.totalCount - w.totalCount, w.totalCount - wbl.totalCount)
  }

  /** With a point found on each of the five days, every field of a
      country's comparison is determined by those five points: the
      increases are differences against today's point, and the rate
      changes compare them with the increases of the day and the week
      before. */
  lemma CountryIncreaseOfFoundPoints(code: CountryCode, points: seq<SeriesPoint>, today: int,
                                     t: SeriesPoint, y: SeriesPoint, dby: SeriesPoint,
                                     w: SeriesPoint, wbl: SeriesPoint)
    requires FindOnDay(points, today) == Some(t)
    requires FindOnDay(points, today - 1) == Some(y)
    requires FindOnDay(points, today - 2) == Some(dby)
    requires FindOnDay(points, today - 7) == Some(w)
    requires FindOnDay(points, today - 14) == Some(wbl)
    ensures IncreaseOfPoints(CountryIncrease(code, points, today), code, t, y, dby, w, wbl)
  {
    assert LookUpDays(points, today) == DayLookups(Some(t), Some(y), Some(dby), Some(w), Some(wbl));
    IncreaseOfFoundLookups(code, t, y, dby, w, wbl);
  }

  lemma IncreaseOfFoundLookups(code: CountryCode, t: SeriesPoint, y: SeriesPoint, dby: SeriesPoint,
                               w: SeriesPoint, wbl: SeriesPoint)
    ensures IncreaseOfPoints(IncreaseFromLookups(code, DayLookups(Some(t), Some(y), Some(dby), Some(w), Some(wbl))),
                             code, t, y, dby, w, wbl)
  {
  }

  /** When a series' last two points fall on `today` and the day before and
      every earlier point on an earlier day, the lookups for those two days
      find them, so the count and percentage gained since yesterday are the
      series' last daily change. */
  lemma YesterdayIncreaseIsLastDailyChange(points: seq<SeriesPoint>, today: int)
    requires |points| >= 2
    requires Day(points[|points| - 1].timestamp) == today
    requires Day(points[|points| - 2].timestamp) == today - 1
    requires forall i :: 0 <= i < |points| - 2 ==> Day(points[i].timestamp) < today - 1
    ensures CountIncrease(FindOnDay(points, today), FindOnDay(points, today - 1))
            == DailyChanges.Changes(points)[|points| - 2].totalCount
    ensures PercentageIncrease(FindOnDay(points, today), FindOnDay(points, today - 1))
            == DailyChanges.Changes(points)[|points| - 2].percentage
  {
    FindLastTwoDays(points, today);
    LastTwoPointsGiveLastChange(points);
  }

  lemma LastTwoPointsGiveLastChange(points: seq<SeriesPoint>)
    requires |points| >= 2
    ensures CountIncrease(Some(points[|points| - 1]), Some(points[|points| - 2]))
            == DailyChanges.Changes(points)[|points| - 2].totalCount
    ensures PercentageIncrease(Some(points[|points| - 1]), Some(points[|points| - 2]))
            == DailyChanges.Changes(points)[|points| - 2].percentage
  {
    DailyChanges.LastChange(points);
  }

  lemma FindLastTwoDays(points: seq<SeriesPoint>, today: int)
    requires |points| >= 2
    requires Day(points[|points| - 1].timestamp) == today
    requires Day(points[|points| - 2].timestamp) == today - 1
    requires forall i :: 0 <= i < |points| - 2 ==> Day(points[i].timestamp) < today - 1
    ensures FindOnDay(points, today) == Some(points[|points| - 1])
    ensures FindOnDay(points, today - 1) == Some(points[|points| - 2])
  {
  }
}
