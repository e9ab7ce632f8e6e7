/**
 * The radar chart of the latest assessment: one point per stored category
 * key, in key order, unless the score map is missing or empty.
 */
module Radar {
  import opened Wrappers
  import opened Strings
  import opened Catalog
  import opened Records

  datatype RadarPoint = RadarPoint(subject: string, value: int, fullMark: int)

  /** `categoryLabels[key] || key.charAt(0).toUpperCase() + key.slice(1)`. */
  function Subject(key: string): string {
    KnownLabel(key).GetOr(Capitalize(key))
  }

  /** The chart data, `None` standing for the unavailable card. */
  function RadarData(analysis: Option<Analysis>): Option<seq<RadarPoint>> {
    if analysis.None? || !HasCategories(analysis.value) then None
    else
      var cats := analysis.value.categories.value;
      Some(seq(|cats|, i requires 0 <= i < |cats| => RadarPoint(Subject(cats[i].0), cats[i].1, 100)))
  }

  /** The unavailable card shows exactly for a missing assessment or a missing or empty score map. */
  lemma RadarAvailable(analysis: Option<Analysis>)
    ensures RadarData(analysis).None? <==>
      analysis.None? || analysis.value.categories.None? || |analysis.value.categories.value| == 0
  {
  }

  /**
   * There is one point per stored category, in key order, carrying its stored
   * value and a full mark of 100; a catalog key is shown with its label and any
   * other key with its first letter upper-cased.
   */
  lemma RadarPoints(analysis: Analysis, i: nat)
    requires HasCategories(analysis) && i < |analysis.categories.value|
    ensures |RadarData(Some(analysis)).value| == |analysis.categories.value|
    ensures RadarData(Some(analysis)).value[i].value == analysis.categories.value[i].1
    ensures RadarData(Some(analysis)).value[i].fullMark == 100
    ensures analysis.categories.value[i].0 in CategoryNames() ==>
      RadarData(Some(analysis)).value[i].subject == KnownLabel(analysis.categories.value[i].0).value
    ensures analysis.categories.value[i].0 !in CategoryNames() ==>
      RadarData(Some(analysis)).value[i].subject == Capitalize(analysis.categories.value[i].0)
  {
  }
}
