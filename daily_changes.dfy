/** Day-over-day changes of a series: the difference between each point and
    the one before it. */
module DailyChanges {
  import opened History

  /** The change from `previous` to `current`, stamped with the later
      point's timestamp. */
  function Change(previous: SeriesPoint, current: SeriesPoint): SeriesPoint
  {
    SeriesPoint(current.timestamp, current.totalCount - previous.totalCount, current.percentage - previous.percentage)
  }

  /** The consecutive differences of `s`, built by appending the change
      into each new last point. */
  function Changes(s: seq<SeriesPoint>): (r: seq<SeriesPoint>)
    ensures |r| == if |s| == 0 then 0 else |s| - 1
    ensures forall i :: 0 <= i < |r| ==>
      && r[i].timestamp == s[i + 1].timestamp
      && r[i].totalCount == s[i + 1].totalCount - s[i].totalCount
      && r[i].percentage == s[i + 1].percentage - s[i].percentage
  {
    if |s| < 2 then []
    else Changes(s[..|s| - 1]) + [Change(s[|s| - 2], s[|s| - 1])]
  }

  /** The index loop of the source: one change per pair of neighbours. */
  method CalculateDailyChanges(dataArray: seq<SeriesPoint>) returns (changes: seq<SeriesPoint>)
    ensures changes == Changes(dataArray)
  {
    changes := [];
    var i := 1;
    while i < |dataArray|
      invariant 1 <= i <= |dataArray| || (|dataArray| == 0 && i == 1)
      invariant |changes| == i - 1
      invariant forall k :: 0 <= k < i - 1 ==> changes[k] == Change(dataArray[k], dataArray[k + 1])
    {
      var current := dataArray[i];
      var previous := dataArray[i - 1];
      changes := changes + [SeriesPoint(current.timestamp,
                                        current.totalCount - previous.totalCount,
                                        current.percentage - previous.percentage)];
      i := i + 1;
    }
    var expected := Changes(dataArray);
    assert |changes| == |expected|;
    forall k | 0 <= k < |changes|
      ensures changes[k] == expected[k]
    {
      assert k < i - 1;
      assert changes[k] == Change(dataArray[k], dataArray[k + 1]);
      assert expected[k].timestamp == dataArray[k + 1].timestamp;
    }
  }

  /** The last change of a series is the change into its last point. */
  lemma LastChange(s: seq<SeriesPoint>)
    requires |s| >= 2
    ensures Changes(s)[|s| - 2] == Change(s[|s| - 2], s[|s| - 1])
  {
  }

  function SumCounts(s: seq<SeriesPoint>): int
  {
    if s == [] then 0 else SumCounts(s[..|s| - 1]) + s[|s| - 1].totalCount
  }

  function SumPercentages(s: seq<SeriesPoint>): real
  {
    if s == [] then 0.0 else SumPercentages(s[..|s| - 1]) + s[|s| - 1].percentage
  }

  /** The changes undo into the series: the first point plus the first k
      changes gives the k-th point, for the count and the percentage alike. */
  lemma {:induction false} ChangesTelescope(s: seq<SeriesPoint>, k: nat)
    requires k < |s|
    ensures s[0].totalCount + SumCounts(Changes(s)[..k]) == s[k].totalCount
    ensures s[0].percentage + SumPercentages(Changes(s)[..k]) == s[k].percentage
  {
    if k > 0 {
      ChangesTelescope(s, k - 1);
      var c := Changes(s);
      assert c[..k][..k - 1] == c[..k - 1];
    }
  }

  /** A series whose count never decreases has no negative daily change. */
  lemma NonDecreasingHasNoNegativeChange(s: seq<SeriesPoint>)
    requires forall i :: 0 <= i < |s| - 1 ==> s[i].totalCount <= s[i + 1].totalCount
    ensures forall i :: 0 <= i < |Changes(s)| ==> Changes(s)[i].totalCount >= 0
  {
  }
}
