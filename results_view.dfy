/**
 * The results view: which panels appear for the current assessment and the
 * history.
 */
module ResultsView {
  import opened Wrappers
  import opened Lists
  import opened Records
  import opened ResultsPage

  /** `hasValidCurrentAnalysis`: a current assessment with a non-empty score map. */
  predicate HasValidCurrentAnalysis(current: Option<Analysis>) {
    current.Some? && HasCategories(current.value)
  }

  /** `hasHistoryForEvolution`: some assessment with a non-empty score map. */
  predicate HasHistoryForEvolution(all: seq<Analysis>) {
    |all| > 0 && exists i :: 0 <= i < |all| && HasCategories(all[i])
  }

  /** The "problem with the recent analysis" card. */
  predicate ShowsRecentProblem(current: Option<Analysis>, all: seq<Analysis>) {
    current.None? && |all| > 0
  }

  /** The panel of the evolution section. */
  datatype EvolutionPanel = EvolutionChartPanel | EvolutionUnavailable | NoEvolutionPanel

  function EvolutionSection(all: seq<Analysis>): EvolutionPanel {
    if HasHistoryForEvolution(all) then EvolutionChartPanel
    else if |all| > 0 then EvolutionUnavailable
    else NoEvolutionPanel
  }

  /** The history qualifies for the evolution chart exactly when some assessment has scores. */
  lemma HistoryIffSomeValid(all: seq<Analysis>)
    ensures HasHistoryForEvolution(all) <==> Count(all, HasCategories) > 0
  {
    FilterEmptyIff(all, HasCategories);
  }

  /** The evolution-unavailable notice shows exactly for a non-empty history with no scored assessment. */
  lemma UnavailableIff(all: seq<Analysis>)
    ensures EvolutionSection(all) == EvolutionUnavailable <==>
      |all| > 0 && forall i :: 0 <= i < |all| ==> !HasCategories(all[i])
  {
  }

  /**
   * With the current assessment taken as the first of the history, the
   * recent-problem card never shows, and a valid current assessment means
   * the evolution chart is offered.
   */
  lemma LoadedStatePanels(current: Option<Analysis>, all: seq<Analysis>)
    requires current == First(all)
    ensures !ShowsRecentProblem(current, all)
    ensures HasValidCurrentAnalysis(current) ==> EvolutionSection(all) == EvolutionChartPanel
  {
    if HasValidCurrentAnalysis(current) {
      assert HasCategories(all[0]);
    }
  }
}
