/**
 * The questionnaire form: answers are recorded one question at a time, and a
 * submission is guarded by the completeness test before the scores are
 * computed and handed to the store.
 */
module Questionnaire {
  import opened Wrappers
  import opened Strings
  import opened Lists
  import opened Catalog
  import opened Recommendations
  import opened Scoring

  /** The answers as the form holds them: option value strings keyed by question id. */
  type RawAnswers = map<string, string>

  /** Question `id` has an answer that is neither missing nor the empty string. */
  predicate Given(raw: RawAnswers, id: string) {
    id in raw && raw[id] != ""
  }

  /**
   * The answers as scoring reads them: an empty answer counts as missing
   * (`answers[id] || 0` and the truthiness tests), and a present one is parsed
   * with `parseInt`; a string that does not parse counts as 0.
   */
  function Parsed(raw: RawAnswers): (r: Answers)
    ensures forall id :: id in r <==> Given(raw, id)
  {
    map id | id in raw && raw[id] != "" :: ParseInt(raw[id]).GetOr(0)
  }

  /** `isFormComplete`: as many answers as catalog questions, and none of them empty. */
  predicate IsComplete(raw: RawAnswers) {
    |raw| == TotalQuestions() && forall id :: id in raw ==> raw[id] != ""
  }

  /** The form only ever records answers to catalog questions. */
  predicate OnlyCatalogIds(raw: RawAnswers) {
    forall id :: id in raw ==> id in AllIds(Sections)
  }

  /** Every catalog question has an answer. */
  predicate AllAnswered(raw: RawAnswers) {
    forall id :: id in AllIds(Sections) ==> Given(raw, id)
  }

  /** Every answer is one of the option values the questions offer. */
  predicate OptionAnswers(raw: RawAnswers) {
    forall id :: id in raw ==> raw[id] in OptionValues(Quality)
  }

  /** What a submission hands to the store: the raw answers, the scores and the advice texts. */
  datatype Payload = Payload(answers: RawAnswers, categories: Scores, recommendations: seq<string>)

  /** The store's reply to a save: an error with its message (possibly empty), and whether a row came back. */
  datatype SaveResponse = SaveResponse(error: Option<string>, saved: bool)

  /** How a submission ends. */
  datatype SubmitOutcome = Incomplete | Submitted | Failed(description: string)

  const SaveFailedMessage: string := "Falha ao salvar análise."
  const NoDataMessage: string := "A análise não retornou dados após ser salva."

  /** The payload of a complete form. */
  function SubmissionPayload(raw: RawAnswers): Payload {
    var categories := CategoryScores(Parsed(raw));
    Payload(raw, categories, Texts(Advise(categories, Parsed(raw))))
  }

  /** The outcome the store's reply leads to once the payload was sent. */
  function SaveOutcome(response: SaveResponse): SubmitOutcome {
    match response.error
    case Some(message) => Failed(if message == "" then SaveFailedMessage else message)
    case None => if response.saved then Submitted else Failed(NoDataMessage)
  }

  /** The form state of the questionnaire page. */
  class QuestionnaireForm {
    var answers: RawAnswers
    var isSubmitting: bool

    constructor()
      ensures answers == map[] && !isSubmitting
    {
      answers := map[];
      isSubmitting := false;
    }

    /** `isFormComplete` over the current answers. */
    predicate IsFormComplete()
      reads this
    {
      IsComplete(answers)
    }

    /** `handleAnswerChange`: records one answer and leaves every other one as it was. */
    method HandleAnswerChange(id: string, value: string)
      modifies this
      ensures answers == old(answers)[id := value]
      ensures isSubmitting == old(isSubmitting)
    {
      answers := answers[id := value];
    }

    /**
     * `handleSubmit`: an incomplete form returns before anything is computed
     * or sent; a complete one computes the scores and advice, sends them with
     * the answers, and ends according to the store's reply. The answers are
     * never changed and the submitting flag is cleared at the end.
     */
    method HandleSubmit(response: SaveResponse) returns (outcome: SubmitOutcome, sent: Option<Payload>)
      modifies this
      ensures answers == old(answers)
      ensures !IsComplete(answers) ==> outcome == Incomplete && sent == None && isSubmitting == old(isSubmitting)
      ensures IsComplete(answers) ==>
        sent == Some(SubmissionPayload(answers)) && outcome == SaveOutcome(response) && !isSubmitting
    {
      if !IsComplete(answers) {
        outcome, sent := Incomplete, None;
        return;
      }
      isSubmitting := true;
      var categories, recommendations := CalculateQuantumResults(Parsed(answers));
      if |categories| == 0 {
        // The critical-error branch: the score map always has the five catalog keys.
        assert false;
      }
      sent := Some(Payload(answers, categories, recommendations));
      if response.error.Some? {
        outcome := Failed(if response.error.value == "" then SaveFailedMessage else response.error.value);
      } else if response.saved {
        outcome := Submitted;
      } else {
        outcome := Failed(NoDataMessage);
      }
      isSubmitting := false;
    }
  }

  /** The catalog ids as a set: 25 of them. */
  lemma CatalogIdSet()
    ensures |set id | id in AllIds(Sections)| == TotalQuestions() == 25
  {
    CatalogShape();
    DistinctCard(AllIds(Sections));
  }

  /**
   * For a form that only holds catalog questions, the completeness test
   * holds exactly when every catalog question has a non-empty answer.
   */
  lemma CompleteIffAllAnswered(raw: RawAnswers)
    requires OnlyCatalogIds(raw)
    ensures IsComplete(raw) <==> AllAnswered(raw)
  {
    CatalogIdSet();
    var ids := set id | id in AllIds(Sections);
    assert raw.Keys <= ids;
    if IsComplete(raw) {
      SubsetFull(raw.Keys, ids);
    }
    if AllAnswered(raw) {
      assert ids <= raw.Keys;
      assert raw.Keys == ids;
    }
  }

  /** The payload always carries the five catalog categories, so the critical-error check passes. */
  lemma PayloadHasCategories(raw: RawAnswers)
    ensures Keys(SubmissionPayload(raw).categories) == CategoryNames()
    ensures |SubmissionPayload(raw).categories| > 0
  {
    CatalogShape();
    ScoresHaveCatalogKeys(Parsed(raw));
  }

  /** An option value answer is read as a number from 1 to 5. */
  lemma ParsedOption(raw: RawAnswers, id: string)
    requires id in raw && raw[id] in OptionValues(Quality)
    ensures id in Parsed(raw) && 1 <= Parsed(raw)[id] <= 5
  {
    var j :| 0 <= j < |OptionValues(Quality)| && OptionValues(Quality)[j] == raw[id];
    OptionValuesParse(Quality, j);
  }

  /** A complete form whose answers are option values gives every category a score from 0 to 100. */
  lemma SubmittedScoresInRange(raw: RawAnswers, i: nat)
    requires OnlyCatalogIds(raw) && IsComplete(raw) && OptionAnswers(raw)
    requires i < |Sections|
    ensures 0 <= SubmissionPayload(raw).categories[i].1 <= 100
  {
    CompleteIffAllAnswered(raw);
    var parsed := Parsed(raw);
    var qs := Sections[i].questions;
    forall k | 0 <= k < |qs| ensures qs[k].id in parsed && 1 <= parsed[qs[k].id] <= 5 {
      QuestionInAllIds(Sections, i, k);
      ParsedOption(raw, qs[k].id);
    }
    assert AnsweredInRange(parsed, qs);
    ScoresInRange(parsed, i);
  }

  /** The store's reply alone decides the outcome of a complete submission. */
  lemma SaveOutcomes(response: SaveResponse)
    ensures SaveOutcome(response) == Submitted <==> response.error.None? && response.saved
    ensures SaveOutcome(response).Failed? <==> !(response.error.None? && response.saved)
    ensures SaveOutcome(response).Failed? ==> SaveOutcome(response).description != ""
  {
  }
}
