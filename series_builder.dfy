/** Reshapes the time-sorted snapshots into one series per country, in the
    order the countries were first seen, plus one EU-aggregate series. */
module SeriesBuilder {
  import opened History

  /** The per-country series: `order` lists the country codes in the order
      they were first seen (the insertion order of the source's dictionary,
      which is its key order for codes that are not array indices), and
      `series` maps each code to its points. */
  datatype CountrySeries = CountrySeries(order: seq<CountryCode>, series: map<CountryCode, seq<SeriesPoint>>)
  {
    ghost predicate Valid()
    {
      && (forall i, j :: 0 <= i < j < |order| ==> order[i] != order[j])
      && (forall c :: c in series <==> c in order)
    }
  }

  /** The EU aggregate uses a fixed population of one million signatures. */
  const EuDenominator: int := 1000000

  function PointOf(ts: Timestamp, cp: CountryPoint): SeriesPoint
  {
    SeriesPoint(ts, cp.totalCount, cp.percentage)
  }

  // ---------------------------------------------------------------------
  // Specification of the grouping, step by step as the loops perform it

  /** Appends one country's point, creating its series on first sight. */
  function AddPoint(cs: CountrySeries, ts: Timestamp, cp: CountryPoint): CountrySeries
  {
    if cp.countryCode in cs.series then
      CountrySeries(cs.order, cs.series[cp.countryCode := cs.series[cp.countryCode] + [PointOf(ts, cp)]])
    else
      CountrySeries(cs.order + [cp.countryCode], cs.series[cp.countryCode := [PointOf(ts, cp)]])
  }

  /** Appends the points of one snapshot's entries, in entry order. */
  function AddEntries(cs: CountrySeries, ts: Timestamp, data: seq<CountryPoint>): CountrySeries
  {
    if data == [] then cs
    else AddPoint(AddEntries(cs, ts, data[..|data| - 1]), ts, data[|data| - 1])
  }

  /** The series after all records have been processed, in record order. */
  function Group(records: seq<HistoryRecord>): CountrySeries
  {
    if records == [] then CountrySeries([], map[])
    else
      var last := records[|records| - 1];
      AddEntries(Group(records[..|records| - 1]), last.timestamp, last.data)
  }

  // ---------------------------------------------------------------------
  // Reference definitions: what a country's series should contain

  predicate InData(data: seq<CountryPoint>, c: CountryCode)
  {
    exists j :: 0 <= j < |data| && data[j].countryCode == c
  }

  /** Some record has an entry for `c`. */
  predicate Mentions(records: seq<HistoryRecord>, c: CountryCode)
  {
    exists i :: 0 <= i < |records| && InData(records[i].data, c)
  }

  /** The points a snapshot contributes to country `c`'s series. */
  function PointsFor(ts: Timestamp, data: seq<CountryPoint>, c: CountryCode): seq<SeriesPoint>
  {
    if data == [] then []
    else
      PointsFor(ts, data[..|data| - 1], c)
      + (if data[|data| - 1].countryCode == c then [PointOf(ts, data[|data| - 1])] else [])
  }

  /** All points of country `c`, record after record. */
  function SeriesOf(records: seq<HistoryRecord>, c: CountryCode): seq<SeriesPoint>
  {
    if records == [] then []
    else
      var last := records[|records| - 1];
      SeriesOf(records[..|records| - 1], c) + PointsFor(last.timestamp, last.data, c)
  }

  /** The records that have an entry for `c`, in order. */
  function Mentioning(records: seq<HistoryRecord>, c: CountryCode): seq<HistoryRecord>
  {
    if records == [] then []
    else
      var last := records[|records| - 1];
      Mentioning(records[..|records| - 1], c) + (if InData(last.data, c) then [last] else [])
  }

  /** The codes of a snapshot's entries, in entry order. */
  function EntryCodes(data: seq<CountryPoint>): seq<CountryCode>
  {
    if data == [] then [] else EntryCodes(data[..|data| - 1]) + [data[|data| - 1].countryCode]
  }

  /** Every entry code of every record, in the order they are read. */
  function Codes(records: seq<HistoryRecord>): seq<CountryCode>
  {
    if records == [] then [] else Codes(records[..|records| - 1]) + EntryCodes(records[|records| - 1].data)
  }

  /** The position of the first occurrence of `c` in `s`. */
  function FirstIndex(s: seq<CountryCode>, c: CountryCode): (i: nat)
    requires c in s
    ensures i < |s| && s[i] == c
    ensures forall j :: 0 <= j < i ==> s[j] != c
  {
    if s[0] == c then 0
    else
      var i := 1 + FirstIndex(s[1..], c);
      assert forall j :: 1 <= j < |s| ==> s[j] == s[1..][j - 1];
      i
  }

  /** `order` lists exactly the codes of `s`, each once, ordered by where
      each first occurs in `s`. */
  ghost predicate FirstSeenOrder(order: seq<CountryCode>, s: seq<CountryCode>)
  {
    && (forall c :: c in order <==> c in s)
    && (forall i, j :: 0 <= i < j < |order| ==> FirstIndex(s, order[i]) < FirstIndex(s, order[j]))
  }

  // ---------------------------------------------------------------------
  // EU aggregate

  function TotalCount(data: seq<CountryPoint>): int
  {
    if data == [] then 0 else TotalCount(data[..|data| - 1]) + data[|data| - 1].totalCount
  }

  /** The sum of the per-country percentages, which the source accumulates
      and never uses. */
  function TotalPercentage(data: seq<CountryPoint>): real
  {
    if data == [] then 0.0 else TotalPercentage(data[..|data| - 1]) + data[|data| - 1].percentage
  }

  /** The EU-aggregate point of one snapshot. */
  function EuPoint(r: HistoryRecord): (p: SeriesPoint)
    ensures p.timestamp == r.timestamp
    ensures p.totalCount == TotalCount(r.data)
    ensures p.percentage * (EuDenominator as real) == (p.totalCount as real) * 100.0
  {
    var count := TotalCount(r.data);
    SeriesPoint(r.timestamp, count, (count as real / EuDenominator as real) * 100.0)
  }

  function EuSeries(records: seq<HistoryRecord>): seq<SeriesPoint>
  {
    seq(|records|, i requires 0 <= i < |records| => EuPoint(records[i]))
  }

  // ---------------------------------------------------------------------
  // The builder

  /** Walks the records and their entries, appending to the country
      dictionary and the EU totals as it goes. */
  method BuildSeries(records: seq<HistoryRecord>) returns (cs: CountrySeries, euTotals: seq<SeriesPoint>)
    ensures cs == Group(records)
    ensures cs.Valid()
    ensures forall c :: c in cs.series <==> Mentions(records, c)
    ensures forall c :: c in cs.series ==> cs.series[c] == SeriesOf(records, c)
    ensures |euTotals| == |records|
    ensures FirstSeenOrder(cs.order, Codes(records))
    ensures forall i :: 0 <= i < |records| ==> euTotals[i] == EuPoint(records[i])
  {
    var countries: map<CountryCode, seq<SeriesPoint>> := map[];
    var order: seq<CountryCode> := [];
    euTotals := [];
    var i := 0;
    while i < |records|
      invariant 0 <= i <= |records|
      invariant CountrySeries(order, countries) == Group(records[..i])
      invariant euTotals == EuSeries(records[..i])
    {
      var entry := records[i];
      var euTotalCount := 0;
      var euTotalPercentage := 0.0;
      var j := 0;
      while j < |entry.data|
        invariant 0 <= j <= |entry.data|
        invariant CountrySeries(order, countries) == AddEntries(Group(records[..i]), entry.timestamp, entry.data[..j])
        invariant euTotalCount == TotalCount(entry.data[..j])
        invariant euTotalPercentage == TotalPercentage(entry.data[..j])
      {
        var countryData := entry.data[j];
        ghost var before := CountrySeries(order, countries);
        if countryData.countryCode !in countries {
          countries := countries[countryData.countryCode := []];
          order := order + [countryData.countryCode];
        }
        assert countries[countryData.countryCode]
          == if countryData.countryCode in before.series then before.series[countryData.countryCode] else [];
        countries := countries[countryData.countryCode := countries[countryData.countryCode]
          + [SeriesPoint(entry.timestamp, countryData.totalCount, countryData.percentage)]];
        assert countries == before.series[countryData.countryCode :=
          (if countryData.countryCode in before.series then before.series[countryData.countryCode] else [])
          + [PointOf(entry.timestamp, countryData)]];
        euTotalCount := euTotalCount + countryData.totalCount;
        euTotalPercentage := euTotalPercentage + countryData.percentage;
        if countryData.countryCode in before.series {
          assert CountrySeries(order, countries) == AddPoint(before, entry.timestamp, countryData);
        } else {
          assert [] + [PointOf(entry.timestamp, countryData)] == [PointOf(entry.timestamp, countryData)];
          assert order == before.order + [countryData.countryCode];
          assert CountrySeries(order, countries) == AddPoint(before, entry.timestamp, countryData);
        }
        assert entry.data[..j + 1][..j] == entry.data[..j];
        j := j + 1;
      }
      assert entry.data[..j] == entry.data;
      euTotals := euTotals + [SeriesPoint(entry.timestamp, euTotalCount, (euTotalCount as real / EuDenominator as real) * 100.0)];
      assert records[..i + 1][..i] == records[..i];
      i := i + 1;
    }
    assert records[..i] == records;
    cs := CountrySeries(order, countries);
    GroupMatchesReference(records);
    GroupFirstSeen(records);
  }

  // ---------------------------------------------------------------------
  // Properties of the grouping

  /** Processing one snapshot's entries adds exactly the codes it mentions. */
  lemma {:induction false} AddEntriesKeys(cs: CountrySeries, ts: Timestamp, data: seq<CountryPoint>)
    ensures forall c :: c in AddEntries(cs, ts, data).series <==> c in cs.series || InData(data, c)
  {
    if data != [] {
      var init := data[..|data| - 1];
      var last := data[|data| - 1];
      AddEntriesKeys(cs, ts, init);
      forall c
        ensures c in AddEntries(cs, ts, data).series <==> c in cs.series || InData(data, c)
      {
        if InData(data, c) {
          var j :| 0 <= j < |data| && data[j].countryCode == c;
          if j < |data| - 1 {
            assert init[j] == data[j];
          }
        }
        if InData(init, c) {
          var j :| 0 <= j < |init| && init[j].countryCode == c;
          assert data[j].countryCode == c;
        }
      }
    }
  }

  /** Processing one snapshot's entries keeps the series well formed: the
      first-seen order stays free of repeats and names exactly the keys. */
  lemma {:induction false} AddEntriesValid(cs: CountrySeries, ts: Timestamp, data: seq<CountryPoint>)
    requires cs.Valid()
    ensures AddEntries(cs, ts, data).Valid()
  {
    if data != [] {
      var init := data[..|data| - 1];
      var last := data[|data| - 1];
      AddEntriesValid(cs, ts, init);
      var mid := AddEntries(cs, ts, init);
      var res := AddPoint(mid, ts, last);
      assert res == AddEntries(cs, ts, data);
      if last.countryCode !in mid.series {
        forall i, j | 0 <= i < j < |res.order|
          ensures res.order[i] != res.order[j]
        {
          if j == |res.order| - 1 {
            assert res.order[i] in mid.order;
          }
        }
      }
    }
  }

  /** Processing one snapshot's entries appends to each country exactly the
      points the snapshot has for it. */
  lemma {:induction false} AddEntriesSeries(cs: CountrySeries, ts: Timestamp, data: seq<CountryPoint>)
    ensures forall c :: c in AddEntries(cs, ts, data).series ==>
      AddEntries(cs, ts, data).series[c] == (if c in cs.series then cs.series[c] else []) + PointsFor(ts, data, c)
  {
    if data != [] {
      var init := data[..|data| - 1];
      var last := data[|data| - 1];
      AddEntriesSeries(cs, ts, init);
      AddEntriesKeys(cs, ts, init);
      var mid := AddEntries(cs, ts, init);
      var res := AddPoint(mid, ts, last);
      assert res == AddEntries(cs, ts, data);
      forall c | c in res.series
        ensures res.series[c] == (if c in cs.series then cs.series[c] else []) + PointsFor(ts, data, c)
      {
        AddPointAppends(mid, ts, last, c);
        var own := if last.countryCode == c then [PointOf(ts, last)] else [];
        assert PointsFor(ts, data, c) == PointsFor(ts, init, c) + own;
        if c !in mid.series {
          PointsForEmptyUnlessPresent(ts, init, c);
        }
      }
    }
  }

  /** One entry appends its point to its own country's series and leaves
      every other series as it was. */
  lemma AddPointAppends(cs: CountrySeries, ts: Timestamp, cp: CountryPoint, c: CountryCode)
    requires c in AddPoint(cs, ts, cp).series
    ensures AddPoint(cs, ts, cp).series[c]
            == (if c in cs.series then cs.series[c] else [])
               + (if cp.countryCode == c then [PointOf(ts, cp)] else [])
  {
  }

  /** Processing one snapshot's entries keeps the series well formed, adds
      exactly the codes it mentions, and appends to each country exactly the
      points the snapshot has for it. */
  lemma AddEntriesAppends(cs: CountrySeries, ts: Timestamp, data: seq<CountryPoint>)
    requires cs.Valid()
    ensures AddEntries(cs, ts, data).Valid()
    ensures forall c :: c in AddEntries(cs, ts, data).series <==> c in cs.series || InData(data, c)
    ensures forall c :: c in AddEntries(cs, ts, data).series ==>
      AddEntries(cs, ts, data).series[c] == (if c in cs.series then cs.series[c] else []) + PointsFor(ts, data, c)
  {
    AddEntriesKeys(cs, ts, data);
    AddEntriesValid(cs, ts, data);
    AddEntriesSeries(cs, ts, data);
  }

  /** A code is mentioned by the records iff it is mentioned before the
      last record or by the last record. */
  lemma MentionsSnoc(records: seq<HistoryRecord>, c: CountryCode)
    requires records != []
    ensures Mentions(records, c)
            <==> Mentions(records[..|records| - 1], c) || InData(records[|records| - 1].data, c)
  {
    var init := records[..|records| - 1];
    if Mentions(init, c) {
      var i :| 0 <= i < |init| && InData(init[i].data, c);
      assert records[i] == init[i];
    }
    if Mentions(records, c) && !InData(records[|records| - 1].data, c) {
      var i :| 0 <= i < |records| && InData(records[i].data, c);
      assert i < |init| && records[i] == init[i];
    }
  }

  /** Appending a code does not move the first occurrence of a code
      already present. */
  lemma FirstIndexSnoc(s: seq<CountryCode>, c: CountryCode, x: CountryCode)
    requires x in s
    ensures FirstIndex(s + [c], x) == FirstIndex(s, x)
  {
    var i := FirstIndex(s, x);
    assert (s + [c])[i] == x;
    assert forall j :: 0 <= j < i ==> (s + [c])[j] == s[j];
  }

  /** Reading one more code keeps a first-seen order: a new code goes to
      the end, a code seen before changes nothing. */
  lemma FirstSeenSnoc(order: seq<CountryCode>, seen: seq<CountryCode>, c: CountryCode)
    requires FirstSeenOrder(order, seen)
    ensures FirstSeenOrder(if c in order then order else order + [c], seen + [c])
  {
    if c in order {
      FirstSeenSnocSeen(order, seen, c);
    } else {
      FirstSeenSnocNew(order, seen, c);
    }
  }

  lemma FirstSeenSnocSeen(order: seq<CountryCode>, seen: seq<CountryCode>, c: CountryCode)
    requires FirstSeenOrder(order, seen) && c in order
    ensures FirstSeenOrder(order, seen + [c])
  {
    forall i, j | 0 <= i < j < |order|
      ensures FirstIndex(seen + [c], order[i]) < FirstIndex(seen + [c], order[j])
    {
      FirstIndexSnoc(seen, c, order[i]);
      FirstIndexSnoc(seen, c, order[j]);
    }
  }

  lemma FirstSeenSnocNew(order: seq<CountryCode>, seen: seq<CountryCode>, c: CountryCode)
    requires FirstSeenOrder(order, seen) && c !in order
    ensures FirstSeenOrder(order + [c], seen + [c])
  {
    var after := seen + [c];
    var extended := order + [c];
    assert c !in seen;
    assert FirstIndex(after, c) == |seen| by {
      assert after[|seen|] == c;
    }
    forall i, j | 0 <= i < j < |extended|
      ensures FirstIndex(after, extended[i]) < FirstIndex(after, extended[j])
    {
      assert extended[i] == order[i];
      FirstIndexSnoc(seen, c, order[i]);
      if j < |order| {
        assert extended[j] == order[j];
        FirstIndexSnoc(seen, c, order[j]);
      }
    }
  }

  /** Processing one snapshot's entries keeps the first-seen order: a code
      not seen before goes to the end, a code seen before changes nothing. */
  lemma {:induction false} AddEntriesFirstSeen(cs: CountrySeries, ts: Timestamp, data: seq<CountryPoint>,
                                               seen: seq<CountryCode>)
    requires cs.Valid() && FirstSeenOrder(cs.order, seen)
    ensures FirstSeenOrder(AddEntries(cs, ts, data).order, seen + EntryCodes(data))
  {
    if data == [] {
      assert seen + EntryCodes(data) == seen;
    } else {
      var init := data[..|data| - 1];
      var c := data[|data| - 1].countryCode;
      AddEntriesFirstSeen(cs, ts, init, seen);
      AddEntriesValid(cs, ts, init);
      var mid := AddEntries(cs, ts, init);
      assert seen + EntryCodes(data) == (seen + EntryCodes(init)) + [c];
      assert AddEntries(cs, ts, data).order == if c in mid.order then mid.order else mid.order + [c];
      FirstSeenSnoc(mid.order, seen + EntryCodes(init), c);
    }
  }

  /** The countries come in the order in which their codes first occur
      when the records and their entries are read front to back. */
  lemma {:induction false} GroupFirstSeen(records: seq<HistoryRecord>)
    ensures FirstSeenOrder(Group(records).order, Codes(records))
  {
    if records != [] {
      var init := records[..|records| - 1];
      var last := records[|records| - 1];
      GroupFirstSeen(init);
      GroupMatchesReference(init);
      AddEntriesFirstSeen(Group(init), last.timestamp, last.data, Codes(init));
    }
  }

  /** The grouping the builder performs agrees with the reference
      definition: the countries are exactly those some record mentions, and
      each country's series is the concatenation, record by record, of the
      points each record has for it. */
  lemma {:induction false} GroupMatchesReference(records: seq<HistoryRecord>)
    ensures Group(records).Valid()
    ensures forall c :: c in Group(records).series <==> Mentions(records, c)
    ensures forall c :: c in Group(records).series ==> Group(records).series[c] == SeriesOf(records, c)
  {
    if records != [] {
      var init := records[..|records| - 1];
      var last := records[|records| - 1];
      GroupMatchesReference(init);
      AddEntriesAppends(Group(init), last.timestamp, last.data);
      forall c
        ensures Mentions(records, c) <==> Mentions(init, c) || InData(last.data, c)
      {
        MentionsSnoc(records, c);
      }
      forall c | c !in Group(init).series
        ensures SeriesOf(init, c) == []
      {
        SeriesOfEmptyUnlessMentioned(init, c);
      }
    }
  }

  lemma {:induction false} SeriesOfEmptyUnlessMentioned(records: seq<HistoryRecord>, c: CountryCode)
    requires !Mentions(records, c)
    ensures SeriesOf(records, c) == []
  {
    if records != [] {
      var init := records[..|records| - 1];
      var last := records[|records| - 1];
      assert !InData(last.data, c) by {
        assert records[|records| - 1] == last;
      }
      forall i | 0 <= i < |init|
        ensures !InData(init[i].data, c)
      {
        assert records[i] == init[i];
      }
      SeriesOfEmptyUnlessMentioned(init, c);
      PointsForEmptyUnlessPresent(last.timestamp, last.data, c);
    }
  }

  lemma {:induction false} PointsForEmptyUnlessPresent(ts: Timestamp, data: seq<CountryPoint>, c: CountryCode)
    requires !InData(data, c)
    ensures PointsFor(ts, data, c) == []
  {
    if data != [] {
      var init := data[..|data| - 1];
      assert data[|data| - 1].countryCode != c;
      forall j | 0 <= j < |init|
        ensures init[j].countryCode != c
      {
        assert init[j] == data[j];
      }
      PointsForEmptyUnlessPresent(ts, init, c);
    }
  }

  /** In a snapshot without repeated codes, a country gets exactly one point
      if the snapshot mentions it and none otherwise, stamped with the
      snapshot's timestamp. */
  lemma {:induction false} PointsForSingle(ts: Timestamp, data: seq<CountryPoint>, c: CountryCode)
    requires DistinctCodes(data)
    ensures |PointsFor(ts, data, c)| == if InData(data, c) then 1 else 0
    ensures forall k :: 0 <= k < |PointsFor(ts, data, c)| ==> PointsFor(ts, data, c)[k].timestamp == ts
  {
    if data != [] {
      var init := data[..|data| - 1];
      var last := data[|data| - 1];
      assert DistinctCodes(init);
      PointsForSingle(ts, init, c);
      if last.countryCode == c {
        forall j | 0 <= j < |init|
          ensures init[j].countryCode != c
        {
          assert init[j] == data[j];
        }
        assert InData(data, c) by { assert data[|data| - 1].countryCode == c; }
      } else {
        assert InData(data, c) <==> InData(init, c) by {
          if InData(init, c) {
            var j :| 0 <= j < |init| && init[j].countryCode == c;
            assert data[j].countryCode == c;
          }
          if InData(data, c) {
            var j :| 0 <= j < |data| && data[j].countryCode == c;
            assert j < |init| && init[j] == data[j];
          }
        }
      }
    }
  }

  /** When no snapshot repeats a country, a country's series has exactly one
      point per record that mentions it, in record order, with that record's
      timestamp: a country absent from a record is not zero-filled. */
  lemma {:induction false} OnePointPerMentioningRecord(records: seq<HistoryRecord>, c: CountryCode)
    requires forall i :: 0 <= i < |records| ==> DistinctCodes(records[i].data)
    ensures |SeriesOf(records, c)| == |Mentioning(records, c)|
    ensures forall k :: 0 <= k < |SeriesOf(records, c)| ==>
      SeriesOf(records, c)[k].timestamp == Mentioning(records, c)[k].timestamp
  {
    if records != [] {
      var init := records[..|records| - 1];
      var last := records[|records| - 1];
      OnePointPerMentioningRecord(init, c);
      PointsForSingle(last.timestamp, last.data, c);
    }
  }

  lemma {:induction false} SeriesBoundedBy(records: seq<HistoryRecord>, c: CountryCode, bound: Timestamp)
    requires forall i :: 0 <= i < |records| ==> records[i].timestamp <= bound
    ensures forall k :: 0 <= k < |SeriesOf(records, c)| ==> SeriesOf(records, c)[k].timestamp <= bound
  {
    if records != [] {
      var init := records[..|records| - 1];
      var last := records[|records| - 1];
      SeriesBoundedBy(init, c, bound);
      PointsForStamped(last.timestamp, last.data, c);
    }
  }

  lemma {:induction false} PointsForStamped(ts: Timestamp, data: seq<CountryPoint>, c: CountryCode)
    ensures forall k :: 0 <= k < |PointsFor(ts, data, c)| ==> PointsFor(ts, data, c)[k].timestamp == ts
  {
    if data != [] {
      PointsForStamped(ts, data[..|data| - 1], c);
    }
  }

  /** Records sorted by timestamp give every country a series in time order. */
  lemma {:induction false} SeriesInTimeOrder(records: seq<HistoryRecord>, c: CountryCode)
    requires SortedByTimestamp(records)
    ensures PointsInTimeOrder(SeriesOf(records, c))
  {
    if records != [] {
      var init := records[..|records| - 1];
      var last := records[|records| - 1];
      SeriesInTimeOrder(init, c);
      SeriesBoundedBy(init, c, last.timestamp);
      PointsForStamped(last.timestamp, last.data, c);
    }
  }

  /** The EU total count depends only on the entries' counts, never on
      their percentages. */
  lemma {:induction false} TotalCountIgnoresPercentages(d1: seq<CountryPoint>, d2: seq<CountryPoint>)
    requires |d1| == |d2|
    requires forall i :: 0 <= i < |d1| ==> d1[i].totalCount == d2[i].totalCount
    ensures TotalCount(d1) == TotalCount(d2)
  {
    if d1 != [] {
      TotalCountIgnoresPercentages(d1[..|d1| - 1], d2[..|d2| - 1]);
    }
  }

  /** Two snapshots with the same timestamp and counts get the same EU
      point, whatever percentages the feed reports for the countries. */
  lemma EuPointIgnoresPercentages(r1: HistoryRecord, r2: HistoryRecord)
    requires r1.timestamp == r2.timestamp && |r1.data| == |r2.data|
    requires forall i :: 0 <= i < |r1.data| ==> r1.data[i].totalCount == r2.data[i].totalCount
    ensures EuPoint(r1) == EuPoint(r2)
  {
    TotalCountIgnoresPercentages(r1.data, r2.data);
  }
}
