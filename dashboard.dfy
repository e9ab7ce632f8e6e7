/**
 * The dashboard hook: the therapist's patients newest first and three
 * counts over them, recomputed after a patient is removed.
 */
module Dashboard {
  import opened Wrappers
  import opened Lists
  import opened Sorting
  import opened Records

  /** Seven days in milliseconds (`setDate(getDate() - 7)`). */
  const SevenDaysMs: int := 7 * 24 * 60 * 60 * 1000

  const NotAuthenticatedMessage: string := "Usuário não autenticado. Não é possível carregar os dados."
  const UnknownErrorMessage: string := "Ocorreu um erro desconhecido."
  const DeleteFailedMessage: string := "Não foi possível remover o paciente."

  datatype Stats = Stats(total: nat, withAnalysis: nat, newLast7Days: nat)

  predicate HasAnalysis(p: Patient) {
    p.hasAnalysis
  }

  /** The patient was created on or after the moment seven days before `now`. */
  function CreatedInLastWeek(now: int): Patient -> bool {
    (p: Patient) => p.createdAt >= now - SevenDaysMs
  }

  /** `calculateStats(patients)`: the number of patients, of those with an assessment, and of the recent ones. */
  function CalculateStats(ps: seq<Patient>, now: int): (r: Stats)
    ensures r.total == |ps| && r.withAnalysis <= r.total && r.newLast7Days <= r.total
    ensures r.withAnalysis == |Filter(ps, HasAnalysis)| && r.newLast7Days == |Filter(ps, CreatedInLastWeek(now))|
  {
    Stats(|ps|, Count(ps, HasAnalysis), Count(ps, CreatedInLastWeek(now)))
  }

  /** The counts of two lists add up. */
  lemma CountsAdd(a: seq<Patient>, b: seq<Patient>, now: int)
    ensures CalculateStats(a + b, now).withAnalysis == CalculateStats(a, now).withAnalysis + CalculateStats(b, now).withAnalysis
    ensures CalculateStats(a + b, now).newLast7Days == CalculateStats(a, now).newLast7Days + CalculateStats(b, now).newLast7Days
  {
    FilterConcat(a, b, HasAnalysis);
    FilterConcat(a, b, CreatedInLastWeek(now));
  }

  /** Removing a patient whose id is unique lowers the total by one; an unknown id changes no count. */
  lemma StatsAfterRemoval(ps: seq<Patient>, id: string, now: int)
    requires forall i, j :: 0 <= i < j < |ps| ==> ps[i].id != ps[j].id
    ensures (exists i :: 0 <= i < |ps| && ps[i].id == id) ==>
      CalculateStats(RemoveById(ps, PatientId, id), now).total == |ps| - 1
    ensures (forall i :: 0 <= i < |ps| ==> ps[i].id != id) ==>
      CalculateStats(RemoveById(ps, PatientId, id), now) == CalculateStats(ps, now)
  {
    if exists i :: 0 <= i < |ps| && ps[i].id == id {
      RemoveOne(ps, PatientId, id);
    }
    if forall i :: 0 <= i < |ps| ==> ps[i].id != id {
      RemoveAbsent(ps, PatientId, id);
    }
  }

  /** The state of `useDashboardLogic`. */
  class DashboardLogic {
    var patients: seq<Patient>
    var isLoading: bool
    var error: Option<string>
    var stats: Stats

    constructor()
      ensures patients == [] && isLoading && error == None && stats == Stats(0, 0, 0)
    {
      patients, isLoading, error, stats := [], true, None, Stats(0, 0, 0);
    }

    /**
     * `fetchPatients()`, with the reply of `getAllPatients` given: without a
     * user nothing is read; a failed read keeps the list and records the
     * message; otherwise the list is sorted newest first and counted.
     */
    method FetchPatients(userId: Option<string>, fetchError: Option<string>, data: Option<seq<Patient>>, now: int)
      modifies this
      ensures !isLoading
      ensures userId.None? || userId.value == "" ==>
        error == Some(NotAuthenticatedMessage) && patients == old(patients) && stats == old(stats)
      ensures userId.Some? && userId.value != "" && fetchError.Some? ==>
        error == Some(if fetchError.value != "" then fetchError.value else UnknownErrorMessage)
        && patients == old(patients) && stats == old(stats)
      ensures userId.Some? && userId.value != "" && fetchError.None? ==>
        error == None && patients == SortDesc(data.GetOr([]), PatientTime)
        && SortedDesc(patients, PatientTime) && stats == CalculateStats(patients, now)
    {
      if userId.None? || userId.value == "" {
        error := Some(NotAuthenticatedMessage);
        isLoading := false;
        return;
      }
      isLoading := true;
      error := None;
      if fetchError.Some? {
        error := Some(if fetchError.value != "" then fetchError.value else UnknownErrorMessage);
        isLoading := false;
        return;
      }
      var sortedPatients := SortDesc(data.GetOr([]), PatientTime);
      SortDescSorted(data.GetOr([]), PatientTime);
      patients := sortedPatients;
      stats := CalculateStats(sortedPatients, now);
      isLoading := false;
    }

    /** `handleDeletePatient(patientId)`, with the store's failure given; the result is the toast text. */
    method HandleDeletePatient(patientId: string, deleteError: Option<string>, now: int) returns (removed: bool, message: string)
      modifies this`patients, this`stats
      ensures removed <==> deleteError.None?
      ensures deleteError.Some? ==>
        patients == old(patients) && stats == old(stats)
        && message == (if deleteError.value != "" then deleteError.value else DeleteFailedMessage)
      ensures deleteError.None? ==>
        patients == RemoveById(old(patients), PatientId, patientId)
        && stats == CalculateStats(patients, now)
    {
      if deleteError.Some? {
        return false, if deleteError.value != "" then deleteError.value else DeleteFailedMessage;
      }
      var remaining := RemoveById(patients, PatientId, patientId);
      patients := remaining;
      stats := CalculateStats(remaining, now);
      removed, message := true, "O paciente foi removido com sucesso.";
    }
  }
}
