/**
 * The comparative bar chart: guards on the current and the previous
 * assessment, then one row per category with both values.
 */
module Comparison {
  import opened Wrappers
  import opened Catalog
  import opened Records

  /** A bar of the chart: the category label with the current and the previous value. */
  datatype BarRow = BarRow(name: string, current: int, previous: int)

  datatype ComparisonView = CurrentInsufficient | FirstAnalysis | PriorIncomplete | Bars(rows: seq<BarRow>)

  /** The rows over the fixed category keys, missing values read as 0. */
  function BarRows(current: Scores, previous: Scores): (r: seq<BarRow>)
    ensures |r| == |CategoryNames()|
  {
    var keys := CategoryNames();
    seq(|keys|, i requires 0 <= i < |keys| =>
      BarRow(KnownLabel(keys[i]).GetOr(keys[i]), ValueOr0(current, keys[i]), ValueOr0(previous, keys[i])))
  }

  /** The component's guards, in their order: current, previous present, previous scored. */
  function Compare(current: Option<Analysis>, previous: Option<Analysis>): ComparisonView {
    if current.None? || current.value.categories.None? then CurrentInsufficient
    else if previous.None? then FirstAnalysis
    else if !HasCategories(previous.value) then PriorIncomplete
    else Bars(BarRows(current.value.categories.value, previous.value.categories.value))
  }

  /**
   * A current assessment without a score map is insufficient, while an empty
   * one passes that guard; a missing previous one is the first-analysis
   * notice; a previous one without scores is incomplete prior data.
   */
  lemma ComparisonGuards(current: Option<Analysis>, previous: Option<Analysis>)
    ensures Compare(current, previous) == CurrentInsufficient <==> current.None? || current.value.categories.None?
    ensures Compare(current, previous) == FirstAnalysis <==>
      current.Some? && current.value.categories.Some? && previous.None?
    ensures Compare(current, previous) == PriorIncomplete <==>
      current.Some? && current.value.categories.Some? && previous.Some? && !HasCategories(previous.value)
    ensures Compare(current, previous).Bars? <==>
      current.Some? && current.value.categories.Some? && previous.Some? && HasCategories(previous.value)
  {
  }

  /**
   * The bars are the five categories in catalog order, each with its name,
   * the current and the previous value, a missing value being 0.
   */
  lemma BarsContent(cur: Scores, prev: Scores, i: nat)
    requires i < |CategoryNames()|
    ensures BarRows(cur, prev)[i].name == KnownLabel(CategoryNames()[i]).value
    ensures CategoryNames()[i] in Keys(cur) ==> (CategoryNames()[i], BarRows(cur, prev)[i].current) in cur
    ensures CategoryNames()[i] !in Keys(cur) ==> BarRows(cur, prev)[i].current == 0
    ensures CategoryNames()[i] in Keys(prev) ==> (CategoryNames()[i], BarRows(cur, prev)[i].previous) in prev
    ensures CategoryNames()[i] !in Keys(prev) ==> BarRows(cur, prev)[i].previous == 0
  {
    assert CategoryNames()[i] in CategoryNames();
  }

  /** An empty current score map passes the first guard and compares as all zeros. */
  lemma EmptyCurrentPasses(id: string, t: int, rec: Option<seq<string>>, previous: Analysis)
    requires HasCategories(previous)
    ensures Compare(Some(Analysis(id, t, Some([]), rec)), Some(previous)).Bars?
    ensures forall r :: r in Compare(Some(Analysis(id, t, Some([]), rec)), Some(previous)).rows ==> r.current == 0
  {
  }
}
