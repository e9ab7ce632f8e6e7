/**
 * `calculateQuantumResults`: for each catalog category, the answers of its
 * questions are added up and normalised to a rounded percentage.
 */
module Scoring {
  import opened Catalog
  import opened Recommendations
  import Strings

  /** Answers keyed by question id, already parsed to numbers. */
  type Answers = map<string, int>

  /** The parsed answer to question `id`; a missing answer counts as 0 (`answers[id] || 0`). */
  function Answer(answers: Answers, id: string): (v: int)
    ensures id !in answers ==> v == 0
    ensures id in answers ==> v == answers[id]
  {
    if id in answers then answers[id] else 0
  }

  /** The sum of the answers to `qs`. */
  function Total(answers: Answers, qs: seq<Question>): int
  {
    if qs == [] then 0 else Total(answers, qs[..|qs| - 1]) + Answer(answers, qs[|qs| - 1].id)
  }

  /**
   * `Math.round((total - n) / (5n - n) * 100)` for `n` questions; JavaScript
   * rounds halves upwards, which is the floor of the value plus one half.
   */
  function Percentage(total: int, n: nat): (r: int)
    requires n > 0
    ensures 2 * n * r - n <= 50 * (total - n) < 2 * n * r + n
  {
    (50 * (total - n) + n) / (2 * n)
  }

  /** The score of one catalog section. */
  function SectionScore(answers: Answers, sec: Section): int
    requires |sec.questions| > 0
  {
    Percentage(Total(answers, sec.questions), |sec.questions|)
  }

  /** The score map the source builds: one entry per catalog category, in catalog order. */
  function CategoryScores(answers: Answers): (r: Scores)
    ensures |r| == |Sections|
  {
    CatalogShape();
    seq(|Sections|, i requires 0 <= i < |Sections| =>
      (Sections[i].category.Name(), SectionScore(answers, Sections[i])))
  }

  /** `calculateQuantumResults(answers)`: the category scores and the advice derived from them. */
  method CalculateQuantumResults(answers: Answers) returns (categories: Scores, recommendations: seq<string>)
    ensures categories == CategoryScores(answers)
    ensures recommendations == Texts(Advise(categories, answers))
  {
    CatalogShape();
    categories := [];
    var i := 0;
    while i < |Sections|
      invariant 0 <= i <= |Sections|
      invariant categories == CategoryScores(answers)[..i]
    {
      var questions := Sections[i].questions;
      var totalScore := 0;
      var j := 0;
      while j < |questions|
        invariant 0 <= j <= |questions|
        invariant totalScore == Total(answers, questions[..j])
      {
        assert questions[..j + 1][..j] == questions[..j];
        totalScore := totalScore + Answer(answers, questions[j].id);
        j := j + 1;
      }
      assert questions[..j] == questions;
      var numQuestions := |questions|;
      categories := categories + [(Sections[i].category.Name(), Percentage(totalScore, numQuestions))];
      i := i + 1;
    }
    recommendations := GenerateRecommendations(categories, answers);
  }

  /** With five questions the rounded percentage is exactly `(total - 5) * 5`, a multiple of 5. */
  lemma PercentageOfFive(total: int)
    ensures Percentage(total, 5) == (total - 5) * 5
    ensures Percentage(total, 5) % 5 == 0
  {
  }

  /** Every catalog score is `(total - 5) * 5` for the total of its section's answers. */
  lemma ScoresAreFiveSteps(answers: Answers, i: nat)
    requires i < |Sections|
    ensures CategoryScores(answers)[i].0 == CategoryNames()[i]
    ensures CategoryScores(answers)[i].1 == (Total(answers, Sections[i].questions) - 5) * 5
    ensures CategoryScores(answers)[i].1 % 5 == 0
  {
    CatalogShape();
    PercentageOfFive(Total(answers, Sections[i].questions));
  }

  /** The score map has exactly the five catalog categories, in order, whatever the answers. */
  lemma ScoresHaveCatalogKeys(answers: Answers)
    ensures Keys(CategoryScores(answers)) == ["energetico", "emocional", "mental", "fisico", "espiritual"]
  {
    CatalogShape();
    var r := CategoryScores(answers);
    assert forall i :: 0 <= i < 5 ==> Keys(r)[i] == CategoryNames()[i];
  }

  /** Every question of `qs` is answered with a value from 1 to 5. */
  predicate AnsweredInRange(answers: Answers, qs: seq<Question>) {
    forall k :: 0 <= k < |qs| ==> qs[k].id in answers && 1 <= answers[qs[k].id] <= 5
  }

  /** Every question of `qs` is answered with `v`. */
  predicate AnsweredWith(answers: Answers, qs: seq<Question>, v: int) {
    forall k :: 0 <= k < |qs| ==> qs[k].id in answers && answers[qs[k].id] == v
  }

  lemma {:induction false} TotalInRange(answers: Answers, qs: seq<Question>)
    requires AnsweredInRange(answers, qs)
    ensures |qs| <= Total(answers, qs) <= 5 * |qs|
  {
    if qs != [] {
      var init := qs[..|qs| - 1];
      assert forall k :: 0 <= k < |init| ==> init[k] == qs[k];
      TotalInRange(answers, init);
    }
  }

  lemma {:induction false} TotalConstant(answers: Answers, qs: seq<Question>, v: int)
    requires AnsweredWith(answers, qs, v)
    ensures Total(answers, qs) == v * |qs|
  {
    if qs != [] {
      var init := qs[..|qs| - 1];
      assert forall k :: 0 <= k < |init| ==> init[k] == qs[k];
      TotalConstant(answers, init, v);
    }
  }

  lemma {:induction false} TotalEmpty(qs: seq<Question>)
    ensures Total(map[], qs) == 0
  {
    if qs != [] { TotalEmpty(qs[..|qs| - 1]); }
  }

  /** With every answer from 1 to 5, every score lies between 0 and 100. */
  lemma ScoresInRange(answers: Answers, i: nat)
    requires i < |Sections| && AnsweredInRange(answers, Sections[i].questions)
    ensures 0 <= CategoryScores(answers)[i].1 <= 100
  {
    CatalogShape();
    TotalInRange(answers, Sections[i].questions);
    ScoresAreFiveSteps(answers, i);
  }

  /** Answering every question of a category with `v` gives it the score `25 * (v - 1)`: 0 for all 1s, 100 for all 5s. */
  lemma UniformAnswers(answers: Answers, i: nat, v: int)
    requires i < |Sections| && AnsweredWith(answers, Sections[i].questions, v)
    ensures CategoryScores(answers)[i].1 == 25 * (v - 1)
    ensures v == 1 ==> CategoryScores(answers)[i].1 == 0
    ensures v == 5 ==> CategoryScores(answers)[i].1 == 100
  {
    CatalogShape();
    TotalConstant(answers, Sections[i].questions, v);
    ScoresAreFiveSteps(answers, i);
  }

  /** Missing answers count as 0, so the empty answer map scores -25 in every category. */
  lemma EmptyAnswers(i: nat)
    requires i < |Sections|
    ensures CategoryScores(map[])[i].1 == -25
  {
    TotalEmpty(Sections[i].questions);
    ScoresAreFiveSteps(map[], i);
  }

  /** The advice computed from a questionnaire never ends in the fallback message. */
  lemma ComputedAdviceHasNoFallback(answers: Answers)
    ensures Fallback !in Advise(CategoryScores(answers), answers)
  {
    CatalogShape();
    ScoresHaveCatalogKeys(answers);
    FallbackUnreachable(CategoryScores(answers), answers);
  }

  /** The sleep and nutrition rules read the third and fifth physical questions. */
  lemma RuleQuestions()
    ensures Sections[3].questions[2].id == "fisico_3"
    ensures Sections[3].questions[4].id == "fisico_5"
  {
    assert Strings.DigitChar(3) == '3' && Strings.DigitChar(5) == '5';
  }

  /** Answering every question with 5 yields exactly the congratulations. */
  lemma TopAnswers(answers: Answers)
    requires forall i :: 0 <= i < |Sections| ==> AnsweredWith(answers, Sections[i].questions, 5)
    ensures Advise(CategoryScores(answers), answers) == [Congratulations]
  {
    CatalogShape();
    var scores := CategoryScores(answers);
    forall i | 0 <= i < |scores| ensures scores[i].1 == 100 {
      UniformAnswers(answers, i, 5);
    }
    RuleQuestions();
    assert AnsweredWith(answers, Sections[3].questions, 5);
    assert answers[Sections[3].questions[2].id] == 5 && answers[Sections[3].questions[4].id] == 5;
    OnlyCongratulations(scores, answers);
  }
}
