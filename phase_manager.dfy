/**
 * The phase manager card: the selected phase, which follows the patient's
 * current phase, and the confirmation that changes the phase in the store
 * after two guards.
 */
module PhaseManager {
  import opened Wrappers
  import opened Strings
  import opened PhaseTable
  import opened Utils
  import opened Lists

  /** The options of the phase selector: value and label. */
  const PhaseOptions: seq<(int, string)> := [
    (1, "Fase 1: Liberação"), (2, "Fase 2: Regeneração"), (3, "Fase 3: Equilíbrio"),
    (4, "Fase 4: Vitalidade"), (5, "Fase 5: Integração"), (6, "Fase 6: Autonomia")
  ]

  const MissingPatientMessage: string := "ID do paciente não encontrado. Não é possível atualizar a fase."
  const UpdateFailedMessage: string := "Falha ao atualizar a fase do paciente."

  /** The selectable phases are exactly 1 to 6, in order, labelled with the phase names. */
  lemma SelectablePhases()
    ensures |PhaseOptions| == 6
    ensures forall i :: 0 <= i < |PhaseOptions| ==> PhaseOptions[i].0 == i + 1
    ensures forall i :: 0 <= i < |PhaseOptions| ==> PhaseOptions[i].1 == PhaseName(i + 1)
  {
  }

  /** Every option value, written out as the selector does, parses back to the option. */
  lemma OptionValuesParse(i: nat)
    requires i < |PhaseOptions|
    ensures ParseInt(IntToString(PhaseOptions[i].0)) == Some(i + 1)
  {
    IntToStringRoundTrip(PhaseOptions[i].0);
  }

  /** `initialPhaseNumber || 1`: an absent or zero phase selects phase 1. */
  function InitialSelection(initial: Option<int>): (r: int)
    ensures initial.None? ==> r == 1
    ensures initial.Some? ==> r == if initial.value == 0 then 1 else initial.value
  {
    if initial.None? || initial.value == 0 then 1 else initial.value
  }

  /** `selectedPhase === initialPhaseNumber`: never when there is no current phase. */
  predicate IsUnchanged(selected: int, initial: Option<int>) {
    initial.Some? && selected == initial.value
  }

  /** Which of the submit guards applies. */
  datatype Guard = NoPatient | SamePhase | Proceed

  /** The guards in order: the patient first, then the unchanged phase. */
  function SubmitGuard(patientId: string, selected: int, initial: Option<int>): (g: Guard)
    ensures g == Proceed <==> patientId != "" && !IsUnchanged(selected, initial)
  {
    if patientId == "" then NoPatient
    else if IsUnchanged(selected, initial) then SamePhase
    else Proceed
  }

  /** The disabled state of the confirm button. */
  predicate IsConfirmDisabled(isLoading: bool, selected: int, initial: Option<int>, patientId: string) {
    isLoading || IsUnchanged(selected, initial) || patientId == ""
  }

  /** An enabled button always passes both guards, and a guard that stops a submit disables the button. */
  lemma EnabledPassesGuards(isLoading: bool, selected: int, initial: Option<int>, patientId: string)
    ensures !IsConfirmDisabled(isLoading, selected, initial, patientId) ==> SubmitGuard(patientId, selected, initial) == Proceed
    ensures SubmitGuard(patientId, selected, initial) != Proceed ==> IsConfirmDisabled(isLoading, selected, initial, patientId)
  {
  }

  /** The description of a failed change (`error?.message || ...`). */
  function FailureMessage(error: Option<string>): (m: string)
    ensures m != ""
    ensures error.Some? && error.value != "" ==> m == error.value
  {
    if error.Some? && error.value != "" then error.value else UpdateFailedMessage
  }

  /** What a confirmation ends in; `Updated` carries what the parent is told. */
  datatype PhaseOutcome = MissingPatient | NoChange | Updated(phase: int, startDate: int, rowId: string) | Failed(message: string)

  /** The outcome of a change from the store's reply. */
  function Outcome(selected: int, reply: TableReply): (o: PhaseOutcome)
    ensures o.Updated? <==> reply.data.Some? && reply.error.None?
    ensures o.Updated? ==> o == Updated(selected, reply.data.value.phaseStartDate, reply.data.value.id)
    ensures o.Failed? <==> !o.Updated?
  {
    if reply.data.Some? && reply.error.None? then Updated(selected, reply.data.value.phaseStartDate, reply.data.value.id)
    else Failed(FailureMessage(reply.error))
  }

  /** The state of `PatientPhaseManager`. */
  class PhaseManagerCard {
    var selectedPhase: int
    var isLoading: bool

    constructor(initial: Option<int>)
      ensures selectedPhase == InitialSelection(initial) && !isLoading
    {
      selectedPhase, isLoading := InitialSelection(initial), false;
    }

    /** The effect on a new current phase: the selection follows it. */
    method SyncSelection(initial: Option<int>)
      modifies this`selectedPhase
      ensures selectedPhase == InitialSelection(initial)
    {
      selectedPhase := InitialSelection(initial);
    }

    /** `handlePhaseChange(value)`: the selector's value parsed as a number. */
    method HandlePhaseChange(value: string)
      requires ParseInt(value).Some?
      modifies this`selectedPhase
      ensures selectedPhase == ParseInt(value).value
    {
      selectedPhase := ParseInt(value).value;
    }

    /**
     * `handleSubmitPhaseUpdate()`: without a patient, or with the current
     * phase selected, nothing is asked of the store; otherwise the store
     * changes the phase and loading is over at the end, whatever the reply.
     */
    method HandleSubmitPhaseUpdate(patientId: string, currentPhaseIdPk: Option<string>, initial: Option<int>,
                                   store: PatientStore, newId: string, now: int, createFailure: Option<string>)
      returns (outcome: PhaseOutcome)
      requires store.Valid()
      modifies this`isLoading, store
      ensures store.Valid() && store.patients == old(store.patients)
      ensures SubmitGuard(patientId, selectedPhase, initial) == NoPatient ==>
        outcome == MissingPatient && store.rows == old(store.rows) && isLoading == old(isLoading)
      ensures SubmitGuard(patientId, selectedPhase, initial) == SamePhase ==>
        outcome == NoChange && store.rows == old(store.rows) && isLoading == old(isLoading)
      ensures SubmitGuard(patientId, selectedPhase, initial) == Proceed ==>
        var reply := UpdateCurrentPhase(old(store.rows), patientId, currentPhaseIdPk, selectedPhase, newId, now, createFailure);
        store.rows == reply.rows && outcome == Outcome(selectedPhase, reply) && !isLoading
    {
      if patientId == "" {
        return MissingPatient;
      }
      if IsUnchanged(selectedPhase, initial) {
        return NoChange;
      }
      isLoading := true;
      var data, error := store.UpdatePatientCurrentPhase(patientId, currentPhaseIdPk, selectedPhase, newId, now, createFailure);
      if data.Some? && error.None? {
        outcome := Updated(selectedPhase, data.value.phaseStartDate, data.value.id);
      } else {
        outcome := Failed(FailureMessage(error));
      }
      isLoading := false;
    }
  }

  /**
   * Confirming a change for a patient without a known phase row id makes the
   * selected phase the patient's current phase when the store reports success.
   */
  lemma ConfirmedChangeIsCurrent(rows: seq<PhaseRow>, patientId: string, selected: int, newId: string, now: int, f: Option<string>)
    requires Distinct(RowIds(rows))
    requires Outcome(selected, UpdateCurrentPhase(rows, patientId, None, selected, newId, now, f)).Updated?
    ensures CurrentPhase(UpdateCurrentPhase(rows, patientId, None, selected, newId, now, f).rows, patientId).Some?
    ensures CurrentPhase(UpdateCurrentPhase(rows, patientId, None, selected, newId, now, f).rows, patientId).value.faseNumero == selected
  {
    ChangeBecomesCurrent(rows, patientId, selected, newId, now, f);
  }
}
