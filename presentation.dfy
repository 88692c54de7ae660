/** What the chart shows: one dataset for the EU aggregate and one per
    country, the value-axis title, and the visibility controls. */
module Presentation {
  import opened History
  import opened SeriesBuilder
  import opened Countries
  import opened DailyChanges

  /** The title of the value axis for the two display switches. */
  function YAxisTitle(usePercentage: bool, showDailyChange: bool): (title: string)
    ensures showDailyChange <==> |title| >= 6 && title[..6] == "Daily "
  {
    if showDailyChange then
      (if usePercentage then "Daily Percentage Change" else "Daily Signature Change")
    else
      assert "Percentage"[0] != 'D' && "Total Count"[0] != 'D';
      (if usePercentage then "Percentage" else "Total Count")
  }

  /** Each of the four switch settings has its own title. */
  lemma YAxisTitleDistinguishesModes(p1: bool, d1: bool, p2: bool, d2: bool)
    requires YAxisTitle(p1, d1) == YAxisTitle(p2, d2)
    ensures p1 == p2 && d1 == d2
  {
    assert |YAxisTitle(p1, d1)| == |YAxisTitle(p2, d2)|;
  }

  datatype ChartPoint = ChartPoint(x: Timestamp, y: real)

  /** One line of the chart. A country's dataset is shown unless hidden. */
  datatype Dataset = Dataset(caption: string, data: seq<ChartPoint>, hidden: bool)

  const EuLabel: string := "EU Total"

  /** The value plotted for a point: its percentage or its count. */
  function Value(p: SeriesPoint, usePercentage: bool): real
  {
    if usePercentage then p.percentage else p.totalCount as real
  }

  /** The series as drawn: itself, or its daily changes. */
  function Shown(points: seq<SeriesPoint>, showDailyChange: bool): (r: seq<SeriesPoint>)
    ensures |r| == if showDailyChange && |points| > 0 then |points| - 1 else |points|
  {
    if showDailyChange then Changes(points) else points
  }

  function Plot(points: seq<SeriesPoint>, usePercentage: bool): (r: seq<ChartPoint>)
    ensures |r| == |points|
    ensures forall k :: 0 <= k < |r| ==> r[k].x == points[k].timestamp && r[k].y == Value(points[k], usePercentage)
  {
    seq(|points|, k requires 0 <= k < |points| => ChartPoint(points[k].timestamp, Value(points[k], usePercentage)))
  }

  function CountryDataset(code: CountryCode, points: seq<SeriesPoint>, usePercentage: bool, showDailyChange: bool): Dataset
  {
    Dataset(DisplayName(code), Plot(Shown(points, showDailyChange), usePercentage), false)
  }

  /** The EU dataset first, hidden, then one shown dataset per country in
      the order the countries were first seen. Every dataset has one value
      per point of its series, or one fewer in daily-change mode; a country
      missing from a record simply has no value there. */
  function PrepareDatasets(cs: CountrySeries, euTotals: seq<SeriesPoint>, usePercentage: bool, showDailyChange: bool)
    : (r: seq<Dataset>)
    requires cs.Valid()
    ensures |r| == |cs.order| + 1
    ensures r[0].caption == EuLabel && r[0].hidden
    ensures forall i :: 0 <= i < |cs.order| ==>
      && r[i + 1].caption == DisplayName(cs.order[i])
      && !r[i + 1].hidden
      && r[i + 1].data == Plot(Shown(cs.series[cs.order[i]], showDailyChange), usePercentage)
    ensures r[0].data == Plot(Shown(euTotals, showDailyChange), usePercentage)
  {
    var euDataset := Dataset(EuLabel, Plot(Shown(euTotals, showDailyChange), usePercentage), true);
    var countryDatasets := CountryDatasets(cs, usePercentage, showDailyChange);
    var r := [euDataset] + countryDatasets;
    assert forall i :: 0 <= i < |cs.order| ==> r[i + 1] == countryDatasets[i];
    r
  }

  /** One dataset per country, in first-seen order. */
  function CountryDatasets(cs: CountrySeries, usePercentage: bool, showDailyChange: bool): (r: seq<Dataset>)
    requires cs.Valid()
    ensures |r| == |cs.order|
    ensures forall i :: 0 <= i < |cs.order| ==>
      r[i] == CountryDataset(cs.order[i], cs.series[cs.order[i]], usePercentage, showDailyChange)
  {
    seq(|cs.order|, i requires 0 <= i < |cs.order| =>
      CountryDataset(cs.order[i], cs.series[cs.order[i]], usePercentage, showDailyChange))
  }

  /** In daily-change mode, the k-th value plotted for a series is the
      change into its (k+1)-th point; otherwise it is the k-th point's own
      value. */
  lemma PlottedValues(points: seq<SeriesPoint>, usePercentage: bool, showDailyChange: bool, k: int)
    requires 0 <= k < |Shown(points, showDailyChange)|
    ensures var v := Plot(Shown(points, showDailyChange), usePercentage)[k];
            if showDailyChange then
              && v.x == points[k + 1].timestamp
              && v.y == (if usePercentage then points[k + 1].percentage - points[k].percentage
                         else (points[k + 1].totalCount - points[k].totalCount) as real)
            else
              v.x == points[k].timestamp && v.y == Value(points[k], usePercentage)
  {
    if showDailyChange {
      assert Shown(points, showDailyChange)[k] == Change(points[k], points[k + 1]);
    }
  }

  /** The visibility the EU-only switch sets: only the EU dataset, or every
      dataset but the EU one. */
  function EuOnlyVisibility(ds: seq<Dataset>, euOnly: bool): (r: seq<Dataset>)
    ensures |r| == |ds|
    ensures forall i :: 0 <= i < |r| ==> r[i].caption == ds[i].caption && r[i].data == ds[i].data
    ensures euOnly ==> forall i :: 0 <= i < |r| ==> (r[i].hidden <==> i != 0)
    ensures !euOnly ==> forall i :: 0 <= i < |r| ==> (r[i].hidden <==> i == 0)
  {
    seq(|ds|, i requires 0 <= i < |ds| => ds[i].(hidden := if euOnly then i != 0 else i == 0))
  }

  /** Every dataset with the same visibility. */
  function AllHidden(ds: seq<Dataset>, hidden: bool): (r: seq<Dataset>)
    ensures |r| == |ds|
    ensures forall i :: 0 <= i < |r| ==> r[i].caption == ds[i].caption && r[i].data == ds[i].data && r[i].hidden == hidden
  {
    seq(|ds|, i requires 0 <= i < |ds| => ds[i].(hidden := hidden))
  }

  /** Pressing the EU-only switch twice from EU-only comes back to EU-only,
      and likewise from countries-only. */
  lemma EuOnlyToggleTwice(ds: seq<Dataset>, euOnly: bool)
    ensures EuOnlyVisibility(EuOnlyVisibility(EuOnlyVisibility(ds, euOnly), !euOnly), euOnly)
            == EuOnlyVisibility(ds, euOnly)
  {
  }

  /** Freshly prepared datasets already look like "countries only": the EU
      dataset hidden and every country shown. So after a rebuild made while
      the EU-only flag is set, the next press of the switch (which then shows
      the countries and hides the EU) changes nothing on screen. */
  lemma {:induction false} RebuiltDatasetsShowCountriesOnly(cs: CountrySeries, euTotals: seq<SeriesPoint>,
                                                            usePercentage: bool, showDailyChange: bool)
    requires cs.Valid()
    ensures var ds := PrepareDatasets(cs, euTotals, usePercentage, showDailyChange);
            EuOnlyVisibility(ds, false) == ds
  {
    var ds := PrepareDatasets(cs, euTotals, usePercentage, showDailyChange);
    var r := EuOnlyVisibility(ds, false);
    forall i | 0 <= i < |ds|
      ensures r[i] == ds[i]
    {
      if i > 0 {
        assert !ds[(i - 1) + 1].hidden;
      }
    }
  }

  /** The chart's mutable state: the two display switches, the EU-only
      flag, the datasets on screen and the value-axis title. */
  class ChartView {
    const countries: CountrySeries
    const euTotals: seq<SeriesPoint>
    var usePercentage: bool
    var showDailyChange: bool
    var showingEUOnly: bool
    var datasets: seq<Dataset>
    var yAxisTitle: string

    /** The chart always plots the current mode: one dataset per country
        plus the EU one, each with the caption and data the current switches
        prepare (only visibility may differ), under the matching title. */
    ghost predicate Valid()
      reads this
    {
      && countries.Valid()
      && |datasets| == |countries.order| + 1
      && (var prepared := PrepareDatasets(countries, euTotals, usePercentage, showDailyChange);
          forall i :: 0 <= i < |datasets| ==>
            datasets[i].caption == prepared[i].caption && datasets[i].data == prepared[i].data)
      && yAxisTitle == YAxisTitle(usePercentage, showDailyChange)
    }

    /** The chart as first drawn: counts, cumulative, countries shown and
        the EU hidden. */
    constructor (cs: CountrySeries, eu: seq<SeriesPoint>)
      requires cs.Valid()
      ensures Valid()
      ensures countries == cs && euTotals == eu
      ensures !usePercentage && !showDailyChange && !showingEUOnly
      ensures datasets == PrepareDatasets(cs, eu, false, false)
      ensures yAxisTitle == YAxisTitle(false, false)
    {
      countries := cs;
      euTotals := eu;
      usePercentage := false;
      showDailyChange := false;
      showingEUOnly := false;
      datasets := PrepareDatasets(cs, eu, false, false);
      yAxisTitle := YAxisTitle(false, false);
    }

    /** Shows every dataset. */
    method SelectAll()
      requires Valid()
      modifies this
      ensures Valid()
      ensures datasets == AllHidden(old(datasets), false)
      ensures usePercentage == old(usePercentage) && showDailyChange == old(showDailyChange)
      ensures showingEUOnly == old(showingEUOnly) && yAxisTitle == old(yAxisTitle)
    {
      ApplyAllHidden(false);
    }

    /** Hides every dataset. */
    method DeselectAll()
      requires Valid()
      modifies this
      ensures Valid()
      ensures datasets == AllHidden(old(datasets), true)
      ensures usePercentage == old(usePercentage) && showDailyChange == old(showDailyChange)
      ensures showingEUOnly == old(showingEUOnly) && yAxisTitle == old(yAxisTitle)
    {
      ApplyAllHidden(true);
    }

    /** The loop of both buttons: every dataset gets the same visibility. */
    method ApplyAllHidden(hidden: bool)
      modifies this
      ensures datasets == AllHidden(old(datasets), hidden)
      ensures usePercentage == old(usePercentage) && showDailyChange == old(showDailyChange)
      ensures showingEUOnly == old(showingEUOnly) && yAxisTitle == old(yAxisTitle)
    {
      var i := 0;
      while i < |datasets|
        invariant 0 <= i <= |datasets| == |old(datasets)|
        invariant forall k :: 0 <= k < i ==> datasets[k] == old(datasets[k]).(hidden := hidden)
        invariant forall k :: i <= k < |datasets| ==> datasets[k] == old(datasets[k])
        invariant usePercentage == old(usePercentage) && showDailyChange == old(showDailyChange)
        invariant showingEUOnly == old(showingEUOnly) && yAxisTitle == old(yAxisTitle)
      {
        datasets := datasets[i := datasets[i].(hidden := hidden)];
        i := i + 1;
      }
    }

    /** Switches between "EU only" and "every country but the EU". */
    method ToggleEUOnly()
      requires Valid()
      modifies this
      ensures Valid()
      ensures showingEUOnly == !old(showingEUOnly)
      ensures datasets == EuOnlyVisibility(old(datasets), showingEUOnly)
      ensures usePercentage == old(usePercentage) && showDailyChange == old(showDailyChange)
      ensures yAxisTitle == old(yAxisTitle)
    {
      if showingEUOnly {
        ApplyEuOnlyVisibility(false);
        showingEUOnly := false;
      } else {
        ApplyEuOnlyVisibility(true);
        showingEUOnly := true;
      }
    }

    /** The loop of either branch of the EU-only switch: index 0 is the EU
        dataset, every other index a country. */
    method ApplyEuOnlyVisibility(euOnly: bool)
      modifies this
      ensures datasets == EuOnlyVisibility(old(datasets), euOnly)
      ensures usePercentage == old(usePercentage) && showDailyChange == old(showDailyChange)
      ensures showingEUOnly == old(showingEUOnly) && yAxisTitle == old(yAxisTitle)
    {
      var i := 0;
      while i < |datasets|
        invariant 0 <= i <= |datasets| == |old(datasets)|
        invariant forall k :: 0 <= k < i ==>
          datasets[k] == old(datasets[k]).(hidden := if euOnly then k != 0 else k == 0)
        invariant forall k :: i <= k < |datasets| ==> datasets[k] == old(datasets[k])
        invariant usePercentage == old(usePercentage) && showDailyChange == old(showDailyChange)
        invariant showingEUOnly == old(showingEUOnly) && yAxisTitle == old(yAxisTitle)
      {
        datasets := datasets[i := datasets[i].(hidden := if euOnly then i != 0 else i == 0)];
        i := i + 1;
      }
    }

    /** Switches the value axis between counts and percentages and rebuilds
        the datasets, which resets their visibility; the EU-only flag is
        left as it was. */
    method SwitchYAxis()
      requires Valid()
      modifies this
      ensures Valid()
      ensures usePercentage == !old(usePercentage) && showDailyChange == old(showDailyChange)
      ensures datasets == PrepareDatasets(countries, euTotals, usePercentage, showDailyChange)
      ensures yAxisTitle == YAxisTitle(usePercentage, showDailyChange)
      ensures showingEUOnly == old(showingEUOnly)
    {
      usePercentage := !usePercentage;
      datasets := PrepareDatasets(countries, euTotals, usePercentage, showDailyChange);
      yAxisTitle := YAxisTitle(usePercentage, showDailyChange);
    }

    /** Switches between cumulative values and daily changes and rebuilds
        the datasets, which resets their visibility; the EU-only flag is
        left as it was. */
    method ToggleDailyChange()
      requires Valid()
      modifies this
      ensures Valid()
      ensures showDailyChange == !old(showDailyChange) && usePercentage == old(usePercentage)
      ensures datasets == PrepareDatasets(countries, euTotals, usePercentage, showDailyChange)
      ensures yAxisTitle == YAxisTitle(usePercentage, showDailyChange)
      ensures showingEUOnly == old(showingEUOnly)
    {
      showDailyChange := !showDailyChange;
      datasets := PrepareDatasets(countries, euTotals, usePercentage, showDailyChange);
      yAxisTitle := YAxisTitle(usePercentage, showDailyChange);
    }
  }
}
