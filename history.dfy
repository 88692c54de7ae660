/** The data the history chart works on: the fetched snapshots and the
    per-country series derived from them. */
module History {

  /** An instant, in milliseconds since the epoch in the viewer's local time. */
  type Timestamp = int

  const MillisPerDay: int := 86400000

  /** The calendar day an instant falls on (days since the epoch).
      Dafny's division rounds towards minus infinity for a positive divisor,
      so instants before the epoch land on the right day too. */
  function Day(ts: Timestamp): int
  {
    ts / MillisPerDay
  }

  type CountryCode = string

  /** One country's figures inside one snapshot, as the feed supplies them. */
  datatype CountryPoint = CountryPoint(countryCode: CountryCode, totalCount: int, percentage: real)

  /** One fetched snapshot of all countries. */
  datatype HistoryRecord = HistoryRecord(timestamp: Timestamp, data: seq<CountryPoint>)

  /** One point of a country's (or the EU aggregate's) time series. */
  datatype SeriesPoint = SeriesPoint(timestamp: Timestamp, totalCount: int, percentage: real)

  datatype Option<T> = None | Some(value: T)

  /** The order the records are in after the timestamp sort of the fetched array. */
  predicate SortedByTimestamp(records: seq<HistoryRecord>)
  {
    forall i, j :: 0 <= i < j < |records| ==> records[i].timestamp <= records[j].timestamp
  }

  predicate PointsInTimeOrder(points: seq<SeriesPoint>)
  {
    forall i, j :: 0 <= i < j < |points| ==> points[i].timestamp <= points[j].timestamp
  }

  /** No country appears twice within one snapshot. */
  predicate DistinctCodes(data: seq<CountryPoint>)
  {
    forall i, j :: 0 <= i < j < |data| ==> data[i].countryCode != data[j].countryCode
  }
}
