/**
 * The results page: the hook that loads a patient, its assessments (newest
 * first), its phase fields and its journal, and the chain of guarded returns
 * that picks what the page shows.
 */
module ResultsPage {
  import opened Wrappers
  import opened Sorting
  import opened Records

  /** A store reply: an error with its message (possibly empty) and the data. */
  datatype Fetched<T> = Fetched(error: Option<string>, data: T)

  /** The phase fields the hook reads from the `data` of the phase reply. */
  datatype PhaseFields = PhaseFields(phaseNumber: int, phaseStartDate: Option<string>, id: Option<string>)

  const PatientNotFoundMessage: string := "Paciente não encontrado."

  /** `sorted[0] || null`. */
  function First<T>(s: seq<T>): (r: Option<T>)
    ensures r.Some? <==> |s| > 0
    ensures r.Some? ==> r.value == s[0]
  {
    if |s| > 0 then Some(s[0]) else None
  }

  /** `sorted[1] || null`. */
  function Second<T>(s: seq<T>): (r: Option<T>)
    ensures r.Some? <==> |s| > 1
    ensures r.Some? ==> r.value == s[1]
  {
    if |s| > 1 then Some(s[1]) else None
  }

  /** The assessments newest first (`sort((a, b) => new Date(b.created_at) - new Date(a.created_at))`). */
  function NewestFirst(analyses: seq<Analysis>): seq<Analysis> {
    SortDesc(analyses, AnalysisTime)
  }

  /** The state of `useResultsPageLogic`. */
  class ResultsPageLogic {
    var patient: Option<Patient>
    var currentAnalysis: Option<Analysis>
    var previousAnalysis: Option<Analysis>
    var allAnalyses: seq<Analysis>
    var journalEntries: seq<JournalEntry>
    var isLoading: bool
    var currentPhaseNumber: int
    var phaseStartDate: Option<string>
    var currentPhaseIdPk: Option<string>

    /** The current and previous assessments are the first two of the list. */
    predicate Valid()
      reads this
    {
      currentAnalysis == First(allAnalyses) && previousAnalysis == Second(allAnalyses)
    }

    constructor()
      ensures Valid() && isLoading
      ensures patient == None && allAnalyses == [] && journalEntries == []
      ensures currentPhaseNumber == 1 && phaseStartDate == None && currentPhaseIdPk == None
    {
      patient, currentAnalysis, previousAnalysis := None, None, None;
      allAnalyses, journalEntries := [], [];
      isLoading := true;
      currentPhaseNumber, phaseStartDate, currentPhaseIdPk := 1, None, None;
    }

    /**
     * `fetchData`, with each store reply given as a parameter. Without a
     * patient id nothing is read; a failed patient read stops before any
     * assessment state is set; a failed assessment read stops before the
     * phase and journal are read. Loading is over at the end in every case,
     * and the returned message is the one the error toast shows.
     */
    method FetchData(patientId: string, patientReply: Fetched<Option<Patient>>,
                     analysesReply: Fetched<seq<Analysis>>, phaseData: Option<PhaseFields>,
                     journalData: Option<seq<JournalEntry>>) returns (error: Option<string>)
      requires Valid()
      modifies this
      ensures Valid() && !isLoading
      ensures patientId == "" ==> error == None && unchanged(this`patient, this`allAnalyses, this`journalEntries)
      ensures patientId == "" || patientReply.error.Some? || patientReply.data.None? ==>
        patient == old(patient) && allAnalyses == old(allAnalyses)
        && currentPhaseNumber == old(currentPhaseNumber) && phaseStartDate == old(phaseStartDate)
        && currentPhaseIdPk == old(currentPhaseIdPk) && journalEntries == old(journalEntries)
      ensures patientId != "" && (patientReply.error.Some? || patientReply.data.None?) ==>
        error == Some(if patientReply.error.Some? && patientReply.error.value != "" then patientReply.error.value
                      else PatientNotFoundMessage)
      ensures patientId != "" && patientReply.error.None? && patientReply.data.Some? ==> patient == patientReply.data
      ensures patientId != "" && patientReply.error.None? && patientReply.data.Some? && analysesReply.error.Some? ==>
        error == analysesReply.error && allAnalyses == old(allAnalyses)
        && currentPhaseNumber == old(currentPhaseNumber) && phaseStartDate == old(phaseStartDate)
        && currentPhaseIdPk == old(currentPhaseIdPk) && journalEntries == old(journalEntries)
      ensures patientId != "" && patientReply.error.None? && patientReply.data.Some? && analysesReply.error.None? ==>
        error == None && allAnalyses == NewestFirst(analysesReply.data)
        && (phaseData.Some? ==>
              currentPhaseNumber == phaseData.value.phaseNumber
              && phaseStartDate == phaseData.value.phaseStartDate && currentPhaseIdPk == phaseData.value.id)
        && (phaseData.None? ==>
              currentPhaseNumber == old(currentPhaseNumber)
              && phaseStartDate == old(phaseStartDate) && currentPhaseIdPk == old(currentPhaseIdPk))
        && journalEntries == (if journalData.Some? then journalData.value else old(journalEntries))
    {
      if patientId == "" {
        isLoading := false;
        return None;
      }
      isLoading := true;
      if patientReply.error.Some? || patientReply.data.None? {
        error := Some(if patientReply.error.Some? && patientReply.error.value != "" then patientReply.error.value
                      else PatientNotFoundMessage);
        isLoading := false;
        return;
      }
      patient := patientReply.data;
      if analysesReply.error.Some? {
        error := analysesReply.error;
        isLoading := false;
        return;
      }
      var sortedAnalyses := NewestFirst(analysesReply.data);
      allAnalyses := sortedAnalyses;
      currentAnalysis := First(sortedAnalyses);
      previousAnalysis := Second(sortedAnalyses);
      if phaseData.Some? {
        currentPhaseNumber := phaseData.value.phaseNumber;
        phaseStartDate := phaseData.value.phaseStartDate;
        currentPhaseIdPk := phaseData.value.id;
      }
      if journalData.Some? {
        journalEntries := journalData.value;
      }
      error := None;
      isLoading := false;
    }

    /** `handlePhaseUpdate`: sets the three phase fields and nothing else. */
    method HandlePhaseUpdate(newPhaseNumber: int, newPhaseStartDate: Option<string>, newPhaseIdPk: Option<string>)
      modifies this`currentPhaseNumber, this`phaseStartDate, this`currentPhaseIdPk
      ensures currentPhaseNumber == newPhaseNumber && phaseStartDate == newPhaseStartDate
      ensures currentPhaseIdPk == newPhaseIdPk
    {
      currentPhaseNumber, phaseStartDate, currentPhaseIdPk := newPhaseNumber, newPhaseStartDate, newPhaseIdPk;
    }
  }

  /** The current assessment is the newest one, and the earliest of the newest in the fetched order. */
  lemma CurrentIsNewest(analyses: seq<Analysis>)
    requires |analyses| > 0
    ensures First(NewestFirst(analyses)).Some?
    ensures exists i :: 0 <= i < |analyses| && First(NewestFirst(analyses)).value == analyses[i]
              && (forall j :: 0 <= j < |analyses| ==> analyses[j].createdAt <= analyses[i].createdAt)
              && (forall j :: 0 <= j < i ==> analyses[j].createdAt < analyses[i].createdAt)
  {
    SortDescFirst(analyses, AnalysisTime);
  }

  /** The previous assessment is no newer than the current one, and both come from the fetched list. */
  lemma PreviousNotNewer(analyses: seq<Analysis>)
    requires |analyses| > 1
    ensures Second(NewestFirst(analyses)).Some?
    ensures First(NewestFirst(analyses)).value.createdAt >= Second(NewestFirst(analyses)).value.createdAt
    ensures First(NewestFirst(analyses)).value in multiset(analyses)
    ensures Second(NewestFirst(analyses)).value in multiset(analyses)
  {
    var r := NewestFirst(analyses);
    SortDescSorted(analyses, AnalysisTime);
    assert r[0] in multiset(r) && r[1] in multiset(r);
  }

  /** What the results page renders. */
  datatype PageView = Spinner | PatientNotFound | NoAnalysis | CorruptLatest | Results | ReloadError

  /** The page's chain of guarded returns. */
  function View(isLoading: bool, patient: Option<Patient>, allAnalyses: seq<Analysis>, current: Option<Analysis>): PageView {
    if isLoading then Spinner
    else if patient.None? then PatientNotFound
    else if |allAnalyses| == 0 then NoAnalysis
    else if current.None? then CorruptLatest
    else if current.Some? then Results
    else ReloadError
  }

  /**
   * Once loading is over and the current assessment is the first of the list,
   * the page shows the error view without a patient, the no-analysis view
   * without assessments, and the results otherwise: the "corrupt latest" and
   * "reload" views are never reached.
   */
  lemma ViewOfLoadedState(patient: Option<Patient>, allAnalyses: seq<Analysis>, current: Option<Analysis>)
    requires current == First(allAnalyses)
    ensures View(false, patient, allAnalyses, current) ==
      if patient.None? then PatientNotFound else if |allAnalyses| == 0 then NoAnalysis else Results
    ensures View(false, patient, allAnalyses, current) != CorruptLatest
    ensures View(false, patient, allAnalyses, current) != ReloadError
  {
  }
}
