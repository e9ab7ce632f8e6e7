/**
 * The questionnaire tabs: one tab per catalog category, in catalog order,
 * each marked complete when all of its questions are answered, with
 * next/previous stepping and first/last flags.
 */
module Tabs {
  import opened Wrappers
  import opened Lists
  import opened Catalog
  import opened Questionnaire

  /** `tabKeys`: the category keys of the catalog. */
  function TabKeys(): seq<string> {
    CategoryNames()
  }

  /** `quantumQuestions[tab]`: the questions of a tab, `None` for an unknown tab. */
  function QuestionsOf(tab: string): (r: Option<seq<Question>>)
    ensures r.None? <==> tab !in TabKeys()
    ensures forall i :: 0 <= i < |Sections| && Sections[i].category.Name() == tab ==> r == Some(Sections[i].questions)
  {
    CatalogShape();
    if tab in TabKeys() then
      var i := FirstIndex(TabKeys(), tab);
      assert forall j :: 0 <= j < |Sections| && Sections[j].category.Name() == tab ==> j == i;
      Some(Sections[i].questions)
    else None
  }

  /** `isTabCompleteCheck`: a known tab whose every question has a non-empty answer. */
  predicate IsTabComplete(answers: RawAnswers, tab: string) {
    match QuestionsOf(tab)
    case None => false
    case Some(qs) => forall k :: 0 <= k < |qs| ==> Given(answers, qs[k].id)
  }

  /** `tabKeys.indexOf(tab)`: the tab's position, or -1 for an unknown tab. */
  function TabIndex(tab: string): (r: int)
    ensures -1 <= r < |TabKeys()|
    ensures r == -1 <==> tab !in TabKeys()
    ensures r >= 0 ==> TabKeys()[r] == tab && forall j :: 0 <= j < r ==> TabKeys()[j] != tab
  {
    if tab in TabKeys() then FirstIndex(TabKeys(), tab) else -1
  }

  /** `onNextTab`: the tab after this one, or no change on the last tab. */
  function NextTab(tab: string): Option<string> {
    var i := TabIndex(tab);
    if i < |TabKeys()| - 1 then Some(TabKeys()[i + 1]) else None
  }

  /** `onPrevTab`: the tab before this one, or no change on the first tab. */
  function PrevTab(tab: string): Option<string> {
    var i := TabIndex(tab);
    if i > 0 then Some(TabKeys()[i - 1]) else None
  }

  predicate IsFirstTab(tab: string) {
    TabIndex(tab) == 0
  }

  predicate IsLastTab(tab: string) {
    TabIndex(tab) == |TabKeys()| - 1
  }

  /** The tabs are the five categories in catalog order, with no repetition. */
  lemma TabOrder()
    ensures TabKeys() == ["energetico", "emocional", "mental", "fisico", "espiritual"]
    ensures Distinct(TabKeys())
  {
    CatalogShape();
  }

  /** The tab at position `i` has index `i`. */
  lemma TabIndexOfKey(i: nat)
    requires i < |TabKeys()|
    ensures TabIndex(TabKeys()[i]) == i
  {
    CatalogShape();
    var r := TabIndex(TabKeys()[i]);
    assert !(r < i) && !(i < r);
  }

  /** On a known tab, "next" does nothing exactly on the last tab, and otherwise moves one position on. */
  lemma NextSteps(tab: string)
    requires tab in TabKeys()
    ensures NextTab(tab).None? <==> IsLastTab(tab)
    ensures NextTab(tab).Some? ==> TabIndex(NextTab(tab).value) == TabIndex(tab) + 1
  {
    if NextTab(tab).Some? { TabIndexOfKey(TabIndex(tab) + 1); }
  }

  /** On a known tab, "previous" does nothing exactly on the first tab, and otherwise moves one position back. */
  lemma PrevSteps(tab: string)
    requires tab in TabKeys()
    ensures PrevTab(tab).None? <==> IsFirstTab(tab)
    ensures PrevTab(tab).Some? ==> TabIndex(PrevTab(tab).value) == TabIndex(tab) - 1
  {
    if PrevTab(tab).Some? { TabIndexOfKey(TabIndex(tab) - 1); }
  }

  /** "Previous" undoes "next", and "next" undoes "previous". */
  lemma NextPrevRoundTrip(tab: string)
    requires tab in TabKeys()
    ensures NextTab(tab).Some? ==> PrevTab(NextTab(tab).value) == Some(tab)
    ensures PrevTab(tab).Some? ==> NextTab(PrevTab(tab).value) == Some(tab)
  {
    NextSteps(tab);
    PrevSteps(tab);
  }

  /** An unknown tab is never complete, neither first nor last, and "next" from it goes to the first tab. */
  lemma UnknownTab(answers: RawAnswers, tab: string)
    requires tab !in TabKeys()
    ensures !IsTabComplete(answers, tab) && !IsFirstTab(tab) && !IsLastTab(tab)
    ensures NextTab(tab) == Some(TabKeys()[0]) && PrevTab(tab) == None
  {
    CatalogShape();
  }

  /** A tab is complete exactly when every question of its category has a non-empty answer. */
  lemma TabCompleteIff(answers: RawAnswers, i: nat)
    requires i < |Sections|
    ensures IsTabComplete(answers, TabKeys()[i]) <==>
      forall k :: 0 <= k < |Sections[i].questions| ==> Given(answers, Sections[i].questions[k].id)
  {
    CatalogShape();
  }

  /**
   * For a form that only holds catalog questions, the form is complete
   * exactly when every tab is.
   */
  lemma CompleteIffAllTabs(answers: RawAnswers)
    requires OnlyCatalogIds(answers)
    ensures IsComplete(answers) <==> forall i :: 0 <= i < |TabKeys()| ==> IsTabComplete(answers, TabKeys()[i])
  {
    CatalogShape();
    CompleteIffAllAnswered(answers);
    if AllAnswered(answers) {
      forall i | 0 <= i < |TabKeys()| ensures IsTabComplete(answers, TabKeys()[i]) {
        forall k | 0 <= k < |Sections[i].questions| ensures Given(answers, Sections[i].questions[k].id) {
          QuestionInAllIds(Sections, i, k);
        }
        TabCompleteIff(answers, i);
      }
    }
    if forall i :: 0 <= i < |TabKeys()| ==> IsTabComplete(answers, TabKeys()[i]) {
      forall id | id in AllIds(Sections) ensures Given(answers, id) {
        AllIdsFromQuestions(Sections, id);
        var i, k :| 0 <= i < |Sections| && 0 <= k < |Sections[i].questions| && Sections[i].questions[k].id == id;
        TabCompleteIff(answers, i);
      }
    }
  }
}
