/**
 * The evolution chart: at least two assessments are needed, of which at
 * least two must carry scores; the scored ones, oldest first, become one data
 * point each with a value for every catalog category.
 */
module Evolution {
  import opened Wrappers
  import opened Lists
  import opened Sorting
  import opened Catalog
  import opened Records

  /** One point of the chart: its 1-based number, its date and a value per category. */
  datatype DataPoint = DataPoint(number: nat, createdAt: int, values: Scores)

  datatype EvolutionView = NeedTwoAnalyses | IncompleteData | Chart(points: seq<DataPoint>)

  /** `Object.keys(categoryLabels)`: the chart's series, in catalog order. */
  function SeriesKeys(): seq<string> {
    CategoryNames()
  }

  /** The scored assessments, oldest first. */
  function ValidAnalyses(history: seq<Analysis>): seq<Analysis> {
    SortAsc(Filter(history, HasCategories), AnalysisTime)
  }

  /** The values of a point: every series key with the stored value, or 0 when it is missing. */
  function PointValues(a: Analysis): Scores
    requires HasCategories(a)
  {
    ValuesFor(SeriesKeys(), a.categories.value)
  }

  /** Each key with its stored value, or 0 when it is missing. */
  function ValuesFor(keys: seq<string>, cats: Scores): (r: Scores)
    ensures |r| == |keys|
  {
    seq(|keys|, i requires 0 <= i < |keys| => (keys[i], ValueOr0(cats, keys[i])))
  }

  function PointOf(a: Analysis, number: nat): DataPoint
    requires HasCategories(a)
  {
    DataPoint(number, a.createdAt, PointValues(a))
  }

  /** The points of the chart, numbered from 1. */
  function ChartData(valid: seq<Analysis>): seq<DataPoint>
    requires forall i :: 0 <= i < |valid| ==> HasCategories(valid[i])
  {
    seq(|valid|, i requires 0 <= i < |valid| => PointOf(valid[i], i + 1))
  }

  lemma ValidHaveCategories(history: seq<Analysis>)
    ensures forall i :: 0 <= i < |ValidAnalyses(history)| ==> HasCategories(ValidAnalyses(history)[i])
  {
    var f := Filter(history, HasCategories);
    var v := ValidAnalyses(history);
    forall i | 0 <= i < |v| ensures HasCategories(v[i]) {
      assert v[i] in multiset(f);
      var k :| 0 <= k < |f| && f[k] == v[i];
    }
  }

  /** What the component renders for a history. */
  function EvolutionOf(history: seq<Analysis>): EvolutionView {
    if |history| < 2 then NeedTwoAnalyses
    else
      var valid := ValidAnalyses(history);
      if |valid| < 2 then IncompleteData
      else
        ValidHaveCategories(history);
        Chart(ChartData(valid))
  }

  /** Fills one data point key by key (the `forEach` over the series keys). */
  method FillDataPoint(a: Analysis, number: nat) returns (p: DataPoint)
    requires HasCategories(a)
    ensures p == PointOf(a, number)
  {
    var values := FillValues(SeriesKeys(), a.categories.value);
    p := DataPoint(number, a.createdAt, values);
  }

  /** `dataPoint[key] = categories[key] || 0` for each key in turn. */
  method FillValues(keys: seq<string>, cats: Scores) returns (values: Scores)
    ensures values == ValuesFor(keys, cats)
  {
    values := [];
    var i := 0;
    while i < |keys|
      invariant 0 <= i <= |keys|
      invariant values == ValuesFor(keys, cats)[..i]
    {
      values := values + [(keys[i], ValueOr0(cats, keys[i]))];
      i := i + 1;
    }
  }

  /** The component: the two insufficiency checks, then one point per scored assessment. */
  method BuildEvolution(history: seq<Analysis>) returns (view: EvolutionView)
    ensures view == EvolutionOf(history)
  {
    if |history| < 2 {
      return NeedTwoAnalyses;
    }
    var valid := ValidAnalyses(history);
    if |valid| < 2 {
      return IncompleteData;
    }
    ValidHaveCategories(history);
    var points := BuildPoints(valid);
    view := Chart(points);
  }

  /** `validAnalyses.map(...)`: one filled point per assessment, numbered from 1. */
  method BuildPoints(valid: seq<Analysis>) returns (points: seq<DataPoint>)
    requires forall i :: 0 <= i < |valid| ==> HasCategories(valid[i])
    ensures points == ChartData(valid)
  {
    points := [];
    var i := 0;
    while i < |valid|
      invariant 0 <= i <= |valid|
      invariant points == ChartData(valid)[..i]
    {
      var p := FillDataPoint(valid[i], i + 1);
      points := points + [p];
      i := i + 1;
    }
  }

  /**
   * Fewer than two assessments in all gives the first notice, checked before
   * any filtering; two or more with fewer than two scored ones gives the second.
   */
  lemma EvolutionStates(history: seq<Analysis>)
    ensures EvolutionOf(history) == NeedTwoAnalyses <==> |history| < 2
    ensures EvolutionOf(history) == IncompleteData <==> |history| >= 2 && Count(history, HasCategories) < 2
    ensures EvolutionOf(history).Chart? <==> |history| >= 2 && Count(history, HasCategories) >= 2
  {
  }

  /** The points follow the assessments one to one, numbered from 1, each with every series key. */
  lemma ChartDataPoints(valid: seq<Analysis>)
    requires forall i :: 0 <= i < |valid| ==> HasCategories(valid[i])
    ensures |ChartData(valid)| == |valid|
    ensures forall i :: 0 <= i < |valid| ==>
      ChartData(valid)[i].number == i + 1 && ChartData(valid)[i].createdAt == valid[i].createdAt
      && Keys(ChartData(valid)[i].values) == SeriesKeys()
  {
    forall i | 0 <= i < |valid| ensures Keys(ChartData(valid)[i].values) == SeriesKeys() {
      ValuesKeys(SeriesKeys(), valid[i].categories.value);
    }
  }

  lemma ValuesKeys(keys: seq<string>, cats: Scores)
    ensures Keys(ValuesFor(keys, cats)) == keys
  {
  }

  /**
   * The chart has one point per scored assessment, numbered from 1, oldest
   * first, and every point holds every catalog category in catalog order.
   */
  lemma ChartPoints(history: seq<Analysis>)
    requires EvolutionOf(history).Chart?
    ensures |EvolutionOf(history).points| == Count(history, HasCategories)
    ensures forall i :: 0 <= i < |EvolutionOf(history).points| ==>
      EvolutionOf(history).points[i].number == i + 1
      && Keys(EvolutionOf(history).points[i].values) == CategoryNames()
    ensures forall i, j :: 0 <= i < j < |EvolutionOf(history).points| ==>
      EvolutionOf(history).points[i].createdAt <= EvolutionOf(history).points[j].createdAt
  {
    var valid := ValidAnalyses(history);
    ValidHaveCategories(history);
    assert EvolutionOf(history).points == ChartData(valid);
    ChartDataPoints(valid);
    SortAscSorted(Filter(history, HasCategories), AnalysisTime);
  }

  /** A point holds the stored value of each category, and 0 for a category the assessment lacks. */
  lemma PointValueOf(a: Analysis, i: nat)
    requires HasCategories(a) && i < |SeriesKeys()|
    ensures PointValues(a)[i].0 == CategoryNames()[i]
    ensures CategoryNames()[i] !in Keys(a.categories.value) ==> PointValues(a)[i].1 == 0
    ensures CategoryNames()[i] in Keys(a.categories.value) ==> (CategoryNames()[i], PointValues(a)[i].1) in a.categories.value
  {
  }
}
