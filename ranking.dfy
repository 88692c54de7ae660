/** Ranks the countries by their increase from yesterday and totals the
    increases over all countries. */
module Ranking {
  import opened History
  import opened SeriesBuilder
  import opened Comparator

  /** The ranking key, which is also what the total increase from
      yesterday sums: a country's increase from yesterday. */
  function Key(x: Increase): int
  {
    x.increaseFromYesterday
  }

  predicate SortedDescending(s: seq<Increase>)
  {
    forall i, j :: 0 <= i < j < |s| ==> Key(s[i]) >= Key(s[j])
  }

  /** The elements of `s` whose key is `k`, in their order in `s`. */
  function WithKey(s: seq<Increase>, k: int): seq<Increase>
  {
    if s == [] then []
    else WithKey(s[..|s| - 1], k) + (if Key(s[|s| - 1]) == k then [s[|s| - 1]] else [])
  }

  /** Inserts `x` into `s` after every element whose key is at least
      `x`'s: the step of a stable descending insertion sort. */
  function InsertDescending(s: seq<Increase>, x: Increase): seq<Increase>
  {
    if s == [] then [x]
    else if Key(s[|s| - 1]) >= Key(x) then s + [x]
    else InsertDescending(s[..|s| - 1], x) + [s[|s| - 1]]
  }

  /** The order a stable sort by descending key puts `s` in. */
  function SortDescending(s: seq<Increase>): seq<Increase>
  {
    if s == [] then [] else InsertDescending(SortDescending(s[..|s| - 1]), s[|s| - 1])
  }

  function SumBy(s: seq<Increase>, f: Increase -> int): int
  {
    if s == [] then 0 else SumBy(s[..|s| - 1], f) + f(s[|s| - 1])
  }

  // ---------------------------------------------------------------------
  // The in-place sort

  /** Sorts `a` in place, descending by increase from yesterday, keeping
      equal keys in their original order. */
  method SortByIncreaseFromYesterday(a: array<Increase>)
    modifies a
    ensures a[..] == SortDescending(old(a[..]))
  {
    ghost var original := a[..];
    var i := 0;
    while i < a.Length
      invariant 0 <= i <= a.Length
      invariant a[..i] == SortDescending(original[..i])
      invariant a[i..] == original[i..]
    {
      ghost var x := a[i];
      InsertLast(a, i);
      assert original[..i + 1] == original[..i] + [x];
      SortDescendingSnoc(original[..i], x);
      i := i + 1;
    }
    assert a[..] == a[..a.Length] && original == original[..a.Length];
  }

  /** Moves `a[i]` down into the prefix `a[..i]`, past every element with a
      smaller key. */
  method InsertLast(a: array<Increase>, i: int)
    requires 0 <= i < a.Length
    modifies a
    ensures a[..i + 1] == InsertDescending(old(a[..i]), old(a[i]))
    ensures a[i + 1..] == old(a[i + 1..])
  {
    var x := a[i];
    ghost var sorted := a[..i];
    var j := i;
    while j > 0 && Key(a[j - 1]) < Key(x)
      invariant 0 <= j <= i
      invariant forall k :: 0 <= k < j ==> a[k] == sorted[k]
      invariant forall k :: j < k <= i ==> a[k] == sorted[k - 1]
      invariant forall k :: i < k < a.Length ==> a[k] == old(a[k])
      invariant forall k :: j <= k < i ==> Key(sorted[k]) < Key(x)
    {
      a[j] := a[j - 1];
      j := j - 1;
    }
    a[j] := x;
    InsertPosition(sorted, x, j);
    ShiftedInsert(a[..i + 1], sorted, x, j);
    assert a[i + 1..] == old(a[i + 1..]);
  }

  /** The array prefix after the shifting loop: `sorted` with `x` at `j`. */
  lemma ShiftedInsert(s: seq<Increase>, sorted: seq<Increase>, x: Increase, j: int)
    requires |s| == |sorted| + 1 && 0 <= j < |s|
    requires forall k :: 0 <= k < j ==> s[k] == sorted[k]
    requires s[j] == x
    requires forall k :: j < k < |s| ==> s[k] == sorted[k - 1]
    ensures s == sorted[..j] + [x] + sorted[j..]
  {
  }

  lemma SortDescendingSnoc(s: seq<Increase>, x: Increase)
    ensures SortDescending(s + [x]) == InsertDescending(SortDescending(s), x)
  {
    assert (s + [x])[..|s|] == s;
  }

  /** `x` goes right after the last element whose key is at least its own. */
  lemma {:induction false} InsertPosition(s: seq<Increase>, x: Increase, j: int)
    requires 0 <= j <= |s|
    requires j == 0 || Key(s[j - 1]) >= Key(x)
    requires forall k :: j <= k < |s| ==> Key(s[k]) < Key(x)
    ensures InsertDescending(s, x) == s[..j] + [x] + s[j..]
  {
    if j < |s| {
      var init := s[..|s| - 1];
      InsertPosition(init, x, j);
      assert init[..j] == s[..j];
      assert init[j..] + [s[|s| - 1]] == s[j..];
    } else {
      assert s[..j] == s;
    }
  }

  // ---------------------------------------------------------------------
  // What the sort promises

  lemma {:induction false} InsertDescendingPermutes(s: seq<Increase>, x: Increase)
    ensures multiset(InsertDescending(s, x)) == multiset(s) + multiset{x}
  {
    if s != [] && Key(s[|s| - 1]) < Key(x) {
      InsertDescendingPermutes(s[..|s| - 1], x);
      MultisetSnoc(s);
    }
  }

  lemma MultisetSnoc(s: seq<Increase>)
    requires s != []
    ensures multiset(s) == multiset(s[..|s| - 1]) + multiset{s[|s| - 1]}
  {
    assert s == s[..|s| - 1] + [s[|s| - 1]];
  }

  lemma {:induction false} InsertDescendingSorted(s: seq<Increase>, x: Increase)
    requires SortedDescending(s)
    ensures SortedDescending(InsertDescending(s, x))
  {
    if s != [] && Key(s[|s| - 1]) < Key(x) {
      var init := s[..|s| - 1];
      var last := s[|s| - 1];
      InsertDescendingSorted(init, x);
      InsertDescendingPermutes(init, x);
      var r := InsertDescending(init, x);
      forall i | 0 <= i < |r|
        ensures Key(r[i]) >= Key(last)
      {
        assert r[i] in multiset(r);
        if r[i] != x {
          assert r[i] in multiset(init);
          var k :| 0 <= k < |init| && init[k] == r[i];
          assert s[k] == init[k];
        }
      }
    }
  }

  /** Inserting `x` leaves the elements of every other key in place and puts
      `x` after the elements of its own key. */
  lemma {:induction false} InsertDescendingStable(s: seq<Increase>, x: Increase, k: int)
    ensures WithKey(InsertDescending(s, x), k) == WithKey(s, k) + (if Key(x) == k then [x] else [])
  {
    if s == [] {
      assert WithKey([x], k) == WithKey([], k) + (if Key(x) == k then [x] else []) by {
        assert [x][..0] == [];
      }
    } else {
      var init := s[..|s| - 1];
      var last := s[|s| - 1];
      assert s == init + [last];
      if Key(last) >= Key(x) {
        assert (s + [x])[..|s|] == s;
      } else {
        InsertDescendingStable(init, x, k);
        var r := InsertDescending(init, x);
        assert InsertDescending(s, x) == r + [last];
        assert (r + [last])[..|r|] == r;
        var own := if Key(x) == k then [x] else [];
        var other := if Key(last) == k then [last] else [];
        assert WithKey(r + [last], k) == WithKey(r, k) + other;
        assert WithKey(s, k) == WithKey(init, k) + other;
        assert own == [] || other == [];
      }
    }
  }

  lemma {:induction false} InsertDescendingSum(s: seq<Increase>, x: Increase, f: Increase -> int)
    ensures SumBy(InsertDescending(s, x), f) == SumBy(s, f) + f(x)
  {
    if s == [] {
      assert [x][..0] == [];
    } else {
      var init := s[..|s| - 1];
      var last := s[|s| - 1];
      if Key(last) >= Key(x) {
        assert (s + [x])[..|s|] == s;
      } else {
        InsertDescendingSum(init, x, f);
        var r := InsertDescending(init, x);
        assert (r + [last])[..|r|] == r;
      }
    }
  }

  /** The ranking is sorted descending by increase from yesterday. */
  lemma {:induction false} SortDescendingSorted(s: seq<Increase>)
    ensures SortedDescending(SortDescending(s))
  {
    if s != [] {
      SortDescendingSorted(s[..|s| - 1]);
      InsertDescendingSorted(SortDescending(s[..|s| - 1]), s[|s| - 1]);
    }
  }

  /** The ranking is a permutation of its input. */
  lemma {:induction false} SortDescendingPermutes(s: seq<Increase>)
    ensures multiset(SortDescending(s)) == multiset(s)
  {
    if s != [] {
      var init := s[..|s| - 1];
      var last := s[|s| - 1];
      SortDescendingPermutes(init);
      InsertDescendingPermutes(SortDescending(init), last);
      MultisetSnoc(s);
    }
  }

  /** The ranking keeps countries with equal increases in their input order:
      for every key, the elements with that key appear as in the input. */
  lemma {:induction false} SortDescendingStable(s: seq<Increase>, k: int)
    ensures WithKey(SortDescending(s), k) == WithKey(s, k)
  {
    if s != [] {
      SortDescendingStable(s[..|s| - 1], k);
      InsertDescendingStable(SortDescending(s[..|s| - 1]), s[|s| - 1], k);
    }
  }

  /** Any total over the countries is the same before and after ranking. */
  lemma {:induction false} SortDescendingKeepsSum(s: seq<Increase>, f: Increase -> int)
    ensures SumBy(SortDescending(s), f) == SumBy(s, f)
  {
    if s != [] {
      SortDescendingKeepsSum(s[..|s| - 1], f);
      InsertDescendingSum(SortDescending(s[..|s| - 1]), s[|s| - 1], f);
    }
  }

  // ---------------------------------------------------------------------
  // The comparison over all countries

  /** What the ranked list shows: the countries in rank order and the
      totals over all countries. */
  datatype Report = Report(
    increases: seq<Increase>,
    totalIncreaseFromYesterday: int,
    totalIncreaseFromLastWeek: int,
    totalRateChangeFromYesterday: real,
    totalRateChangeFromLastWeek: real)

  function IncreaseFromLastWeekOf(x: Increase): int
  {
    x.increaseFromLastWeek
  }

  /** The increase of the day before for `x`'s country, looked up again in
      that country's series. */
  function PreviousDayIncreaseOf(cs: CountrySeries, today: int): Increase -> int
  {
    (x: Increase) => if x.countryCode in cs.series then PreviousDayIncrease(LookUpDays(cs.series[x.countryCode], today)) else 0
  }

  /** The increase of the week before for `x`'s country, looked up again in
      that country's series. */
  function PreviousWeekIncreaseOf(cs: CountrySeries, today: int): Increase -> int
  {
    (x: Increase) => if x.countryCode in cs.series then PreviousWeekIncrease(LookUpDays(cs.series[x.countryCode], today)) else 0
  }

  /** The totals look each country's previous-day and previous-week
      increase up again; they find the same values each country's own rate
      change was computed from. */
  lemma PreviousIncreasesMatchCountryRates(cs: CountrySeries, today: int, i: int)
    requires cs.Valid() && 0 <= i < |cs.order|
    ensures var x := Unranked(cs, today)[i];
      && x.rateChangeFromYesterday == RateChange(x.increaseFromYesterday, PreviousDayIncreaseOf(cs, today)(x))
      && x.rateChangeFromLastWeek == RateChange(x.increaseFromLastWeek, PreviousWeekIncreaseOf(cs, today)(x))
  {
  }

  /** Compares every country's point on the calendar day of the last
      record with its points one day and one week earlier, ranks the
      countries, sums the increases and takes the rate changes of those
      sums. "Today" is the calendar
      day of the last record; with no records at all there is no last record
      and nothing is computed. The records come sorted by time and `cs` is
      the grouping built from them, so the last record is the latest. */
  method CalculateIncreases(data: seq<HistoryRecord>, cs: CountrySeries) returns (report: Option<Report>)
    requires SortedByTimestamp(data)
    requires cs == Group(data)
    requires cs.Valid()
    ensures report.None? <==> data == []
    ensures report.Some? ==>
      var today := Day(data[|data| - 1].timestamp);
      var byCountry := Unranked(cs, today);
      && report.value.increases == SortDescending(byCountry)
      && SortedDescending(report.value.increases)
      && multiset(report.value.increases) == multiset(byCountry)
      && (forall k :: WithKey(report.value.increases, k) == WithKey(byCountry, k))
      && report.value.totalIncreaseFromYesterday == SumBy(byCountry, Key)
      && report.value.totalIncreaseFromLastWeek == SumBy(byCountry, IncreaseFromLastWeekOf)
      && report.value.totalRateChangeFromYesterday
         == RateChange(report.value.totalIncreaseFromYesterday, SumBy(byCountry, PreviousDayIncreaseOf(cs, today)))
      && report.value.totalRateChangeFromLastWeek
         == RateChange(report.value.totalIncreaseFromLastWeek, SumBy(byCountry, PreviousWeekIncreaseOf(cs, today)))
  {
    if |data| == 0 {
      return None;
    }
    var today := Day(data[|data| - 1].timestamp);
    var increases := Unranked(cs, today);
    var a := new Increase[|increases|](i requires 0 <= i < |increases| => increases[i]);
    assert a[..] == increases;
    SortByIncreaseFromYesterday(a);
    var ranked := a[..];

    var totalIncreaseFromYesterday := SumBy(ranked, Key);
    var totalIncreaseFromLastWeek := SumBy(ranked, IncreaseFromLastWeekOf);
    var totalPreviousDayIncrease := SumBy(ranked, PreviousDayIncreaseOf(cs, today));
    var totalPreviousWeekIncrease := SumBy(ranked, PreviousWeekIncreaseOf(cs, today));

    SortDescendingKeepsSum(increases, Key);
    SortDescendingKeepsSum(increases, IncreaseFromLastWeekOf);
    SortDescendingKeepsSum(increases, PreviousDayIncreaseOf(cs, today));
    SortDescendingKeepsSum(increases, PreviousWeekIncreaseOf(cs, today));
    SortDescendingSorted(increases);
    SortDescendingPermutes(increases);
    forall k
      ensures WithKey(ranked, k) == WithKey(increases, k)
    {
      SortDescendingStable(increases, k);
    }

    report := Some(Report(
      ranked,
      totalIncreaseFromYesterday,
      totalIncreaseFromLastWeek,
      RateChange(totalIncreaseFromYesterday, totalPreviousDayIncrease),
      RateChange(totalIncreaseFromLastWeek, totalPreviousWeekIncrease)));
  }
}
