/**
 * The patient and phase tables behind `patientDataUtils`: the lazily created
 * first phase, the current phase of a patient (its most recently created row),
 * the phase change that rewrites the current row in place, and the join of a
 * therapist's patients with their phase rows.
 */
module PhaseTable {
  import opened Wrappers
  import opened Lists
  import opened Sorting
  import opened Records

  /** A `patient_current_phase` row; the start and creation dates are timestamps. */
  datatype PhaseRow = PhaseRow(id: string, patientId: string, faseNumero: int, phaseStartDate: int, createdAt: int)

  /** What a write returns: the table afterwards, the returned row and the error, if any. */
  datatype TableReply = TableReply(rows: seq<PhaseRow>, data: Option<PhaseRow>, error: Option<string>)

  /** The message of an insert whose generated id is already taken. */
  const DuplicateKeyMessage: string := "duplicate key value violates unique constraint"
  /** The message of `.single()` when the update matched no row. */
  const NoRowMessage: string := "JSON object requested, multiple (or no) rows returned"
  const TherapistRequiredMessage: string := "Therapist ID is required."

  function RowId(row: PhaseRow): string {
    row.id
  }

  function RowIds(rows: seq<PhaseRow>): seq<string> {
    Project(rows, RowId)
  }

  function PatientId(p: Patient): string {
    p.id
  }

  function PatientIds(ps: seq<Patient>): seq<string> {
    Project(ps, PatientId)
  }

  /** The position of the row with id `id`, or -1. */
  function RowIndex(rows: seq<PhaseRow>, id: string): (k: int)
    ensures -1 <= k < |rows|
    ensures k == -1 <==> id !in RowIds(rows)
    ensures k >= 0 ==> rows[k].id == id && forall j :: 0 <= j < k ==> rows[j].id != id
  {
    if rows == [] then -1
    else if rows[0].id == id then 0
    else
      var k := RowIndex(rows[1..], id);
      assert RowIds(rows) == [rows[0].id] + RowIds(rows[1..]);
      if k == -1 then -1 else k + 1
  }

  /**
   * `getPatientCurrentPhase`: the row of the patient created last (`order by
   * created_at desc limit 1`), the earlier row among equal timestamps, or
   * `None` when the patient has no row.
   */
  function CurrentPhase(rows: seq<PhaseRow>, patientId: string): (r: Option<PhaseRow>)
    ensures r.None? <==> forall i :: 0 <= i < |rows| ==> rows[i].patientId != patientId
    ensures r.Some? ==> r.value in rows && r.value.patientId == patientId
    ensures r.Some? ==> forall i :: 0 <= i < |rows| && rows[i].patientId == patientId ==> rows[i].createdAt <= r.value.createdAt
  {
    if rows == [] then None
    else
      var rest := CurrentPhase(rows[1..], patientId);
      assert forall i :: 0 < i < |rows| ==> rows[i] == rows[1..][i - 1];
      if rows[0].patientId != patientId then rest
      else if rest.Some? && rest.value.createdAt > rows[0].createdAt then rest
      else Some(rows[0])
  }

  /** An insert of `row`: it fails with `failure`, or when its id is taken; otherwise the row is appended. */
  function Insert(rows: seq<PhaseRow>, row: PhaseRow, failure: Option<string>): (r: TableReply)
    ensures r.error.Some? <==> failure.Some? || row.id in RowIds(rows)
    ensures r.error.Some? ==> r.rows == rows && r.data.None?
    ensures r.error.None? ==> r.rows == rows + [row] && r.data == Some(row)
  {
    if failure.Some? then TableReply(rows, None, failure)
    else if row.id in RowIds(rows) then TableReply(rows, None, Some(DuplicateKeyMessage))
    else TableReply(rows + [row], Some(row), None)
  }

  /** `createInitialPatientPhase`: a row with phase 1 started now. */
  function CreateInitial(rows: seq<PhaseRow>, patientId: string, newId: string, now: int, failure: Option<string>): TableReply {
    Insert(rows, PhaseRow(newId, patientId, 1, now, now), failure)
  }

  /** The row with its phase number and start date rewritten when its id is `id`. */
  function SetRow(row: PhaseRow, id: string, n: int, now: int): PhaseRow {
    if row.id == id then row.(faseNumero := n, phaseStartDate := now) else row
  }

  /** `update({fase_numero, phase_start_date}).eq('id', id)` on the table. */
  function SetPhase(rows: seq<PhaseRow>, id: string, n: int, now: int): (r: seq<PhaseRow>)
    ensures |r| == |rows|
  {
    seq(|rows|, i requires 0 <= i < |rows| => SetRow(rows[i], id, n, now))
  }

  /** The update followed by `.select().single()`: the rewritten row, or an error when no row has the id. */
  function UpdateById(rows: seq<PhaseRow>, id: string, n: int, now: int): TableReply {
    var t := SetPhase(rows, id, n, now);
    var k := RowIndex(t, id);
    if k < 0 then TableReply(t, None, Some(NoRowMessage)) else TableReply(t, Some(t[k]), None)
  }

  /**
   * `updatePatientCurrentPhase`: the row named by `phaseId`, else the current
   * row of the patient, else a freshly created phase-1 row is rewritten with
   * the new number; a failed creation is returned as it is.
   */
  function UpdateCurrentPhase(rows: seq<PhaseRow>, patientId: string, phaseId: Option<string>, n: int,
                              newId: string, now: int, createFailure: Option<string>): TableReply
  {
    if phaseId.Some? && phaseId.value != "" then UpdateById(rows, phaseId.value, n, now)
    else match CurrentPhase(rows, patientId)
      case Some(current) => UpdateById(rows, current.id, n, now)
      case None =>
        var created := CreateInitial(rows, patientId, newId, now, createFailure);
        if created.error.Some? then TableReply(rows, None, created.error)
        else UpdateById(created.rows, created.data.value.id, n, now)
  }

  /** Rewriting rows keeps every id, patient and creation date where it was. */
  lemma SetPhaseKeeps(rows: seq<PhaseRow>, id: string, n: int, now: int)
    ensures RowIds(SetPhase(rows, id, n, now)) == RowIds(rows)
    ensures forall i :: 0 <= i < |rows| ==>
      SetPhase(rows, id, n, now)[i].patientId == rows[i].patientId
      && SetPhase(rows, id, n, now)[i].createdAt == rows[i].createdAt
  {
  }

  /** With a known id, the change rewrites that one row in place: no row is added or removed. */
  lemma UpdateWithIdInPlace(rows: seq<PhaseRow>, patientId: string, id: string, n: int, newId: string, now: int, f: Option<string>)
    requires id != "" && id in RowIds(rows)
    ensures UpdateCurrentPhase(rows, patientId, Some(id), n, newId, now, f)
         == TableReply(SetPhase(rows, id, n, now), Some(rows[RowIndex(rows, id)].(faseNumero := n, phaseStartDate := now)), None)
    ensures RowIds(SetPhase(rows, id, n, now)) == RowIds(rows)
    ensures forall i :: 0 <= i < |rows| && rows[i].id != id ==> SetPhase(rows, id, n, now)[i] == rows[i]
  {
    SetPhaseKeeps(rows, id, n, now);
    assert RowIndex(SetPhase(rows, id, n, now), id) == RowIndex(rows, id) by {
      var t := SetPhase(rows, id, n, now);
      var k := RowIndex(rows, id);
      assert t[k].id == id;
      assert forall j :: 0 <= j < k ==> t[j].id == rows[j].id;
    }
  }

  /** An id that no row has changes nothing and reports the missing row. */
  lemma UpdateWithUnknownId(rows: seq<PhaseRow>, patientId: string, id: string, n: int, newId: string, now: int, f: Option<string>)
    requires id != "" && id !in RowIds(rows)
    ensures UpdateCurrentPhase(rows, patientId, Some(id), n, newId, now, f) == TableReply(rows, None, Some(NoRowMessage))
  {
    SetPhaseKeeps(rows, id, n, now);
    assert SetPhase(rows, id, n, now) == rows;
  }

  /** Without an id, the patient's current row is the one rewritten. */
  lemma UpdateReusesCurrent(rows: seq<PhaseRow>, patientId: string, n: int, newId: string, now: int, f: Option<string>)
    requires CurrentPhase(rows, patientId).Some?
    ensures UpdateCurrentPhase(rows, patientId, None, n, newId, now, f).rows
         == SetPhase(rows, CurrentPhase(rows, patientId).value.id, n, now)
    ensures UpdateCurrentPhase(rows, patientId, None, n, newId, now, f).error.None?
  {
    var cur := CurrentPhase(rows, patientId).value;
    var t := SetPhase(rows, cur.id, n, now);
    SetPhaseKeeps(rows, cur.id, n, now);
    var i :| 0 <= i < |rows| && rows[i] == cur;
    assert RowIds(t)[i] == cur.id;
  }

  /** Without an id and without a row, phase 1 is created and at once rewritten to the new number. */
  lemma UpdateCreatesRow(rows: seq<PhaseRow>, patientId: string, n: int, newId: string, now: int)
    requires CurrentPhase(rows, patientId).None? && newId !in RowIds(rows)
    ensures UpdateCurrentPhase(rows, patientId, None, n, newId, now, None)
         == TableReply(rows + [PhaseRow(newId, patientId, n, now, now)], Some(PhaseRow(newId, patientId, n, now, now)), None)
  {
    var created := CreateInitial(rows, patientId, newId, now, None);
    assert created == TableReply(rows + [PhaseRow(newId, patientId, 1, now, now)], Some(PhaseRow(newId, patientId, 1, now, now)), None);
    UpdateAppended(rows, PhaseRow(newId, patientId, 1, now, now), n, now);
  }

  /** Rewriting a just-appended row, whose id no other row has, changes that row only. */
  lemma UpdateAppended(rows: seq<PhaseRow>, row: PhaseRow, n: int, now: int)
    requires row.id !in RowIds(rows)
    ensures UpdateById(rows + [row], row.id, n, now)
         == TableReply(rows + [row.(faseNumero := n, phaseStartDate := now)], Some(row.(faseNumero := n, phaseStartDate := now)), None)
  {
    var t := SetPhase(rows + [row], row.id, n, now);
    var row' := row.(faseNumero := n, phaseStartDate := now);
    forall i | 0 <= i < |rows| ensures t[i] == rows[i] {
      assert RowIds(rows)[i] == rows[i].id;
    }
    assert t == rows + [row'];
    assert RowIds(t) == RowIds(rows) + [row.id];
    var k := RowIndex(t, row.id);
    assert forall j :: 0 <= j < |rows| ==> t[j].id == RowIds(rows)[j] != row.id;
  }

  /** Without an id and without a row, a failed creation is returned and the table is left as it was. */
  lemma UpdateCreateFails(rows: seq<PhaseRow>, patientId: string, n: int, newId: string, now: int, failure: string)
    requires CurrentPhase(rows, patientId).None?
    ensures UpdateCurrentPhase(rows, patientId, None, n, newId, now, Some(failure)) == TableReply(rows, None, Some(failure))
  {
  }

  /** The current phase selection depends only on patients and creation dates, which a rewrite keeps. */
  lemma {:induction false} SetPhaseCurrent(rows: seq<PhaseRow>, patientId: string, id: string, n: int, now: int)
    ensures CurrentPhase(SetPhase(rows, id, n, now), patientId) ==
      match CurrentPhase(rows, patientId)
      case None => None
      case Some(r) => Some(SetRow(r, id, n, now))
  {
    if rows != [] {
      SetPhaseCurrent(rows[1..], patientId, id, n, now);
      assert SetPhase(rows, id, n, now)[1..] == SetPhase(rows[1..], id, n, now);
    }
  }

  /**
   * A change without a phase id that succeeds makes the rewritten row the
   * patient's current phase, now holding the new number.
   */
  lemma ChangeBecomesCurrent(rows: seq<PhaseRow>, patientId: string, n: int, newId: string, now: int, f: Option<string>)
    requires Distinct(RowIds(rows))
    requires UpdateCurrentPhase(rows, patientId, None, n, newId, now, f).error.None?
    ensures CurrentPhase(UpdateCurrentPhase(rows, patientId, None, n, newId, now, f).rows, patientId)
         == UpdateCurrentPhase(rows, patientId, None, n, newId, now, f).data
    ensures UpdateCurrentPhase(rows, patientId, None, n, newId, now, f).data.value.faseNumero == n
  {
    var cur := CurrentPhase(rows, patientId);
    if cur.Some? {
      var t := SetPhase(rows, cur.value.id, n, now);
      SetPhaseCurrent(rows, patientId, cur.value.id, n, now);
      SetPhaseKeeps(rows, cur.value.id, n, now);
      var i :| 0 <= i < |rows| && rows[i] == cur.value;
      assert RowIds(t)[i] == cur.value.id;
      var k := RowIndex(t, cur.value.id);
      assert RowIds(rows)[k] == RowIds(rows)[i];
      assert k == i;
    } else {
      assert f.None? && newId !in RowIds(rows);
      UpdateCreatesRow(rows, patientId, n, newId, now);
      var row := PhaseRow(newId, patientId, n, now, now);
      var t := rows + [row];
      assert forall i :: 0 <= i < |rows| ==> t[i] == rows[i];
      assert CurrentPhase(t, patientId) == Some(row) by {
        CurrentIsTheOnlyRow(rows, patientId, row);
      }
    }
  }

  /** Appending the only row of a patient makes it the patient's current phase. */
  lemma {:induction false} CurrentIsTheOnlyRow(rows: seq<PhaseRow>, patientId: string, row: PhaseRow)
    requires CurrentPhase(rows, patientId).None? && row.patientId == patientId
    ensures CurrentPhase(rows + [row], patientId) == Some(row)
  {
    if rows != [] {
      assert (rows + [row])[1..] == rows[1..] + [row];
      CurrentIsTheOnlyRow(rows[1..], patientId, row);
    }
  }

  /** Every write keeps the row ids distinct. */
  lemma UpdateKeepsIdsDistinct(rows: seq<PhaseRow>, patientId: string, phaseId: Option<string>, n: int,
                               newId: string, now: int, f: Option<string>)
    requires Distinct(RowIds(rows))
    ensures Distinct(RowIds(UpdateCurrentPhase(rows, patientId, phaseId, n, newId, now, f).rows))
  {
    var r := UpdateCurrentPhase(rows, patientId, phaseId, n, newId, now, f);
    if phaseId.Some? && phaseId.value != "" {
      SetPhaseKeeps(rows, phaseId.value, n, now);
    } else if CurrentPhase(rows, patientId).Some? {
      SetPhaseKeeps(rows, CurrentPhase(rows, patientId).value.id, n, now);
    } else {
      var created := CreateInitial(rows, patientId, newId, now, f);
      if created.error.None? {
        InsertKeepsIdsDistinct(rows, created.data.value);
        SetPhaseKeeps(created.rows, newId, n, now);
      }
    }
  }

  lemma InsertKeepsIdsDistinct(rows: seq<PhaseRow>, row: PhaseRow)
    requires Distinct(RowIds(rows)) && row.id !in RowIds(rows)
    ensures Distinct(RowIds(rows + [row]))
  {
    assert RowIds(rows + [row]) == RowIds(rows) + [row.id];
    DistinctConcat(RowIds(rows), [row.id]);
  }

  /** The last row of the query result for the patient: the entry `new Map(...)` keeps for that key. */
  function LastRowFor(rows: seq<PhaseRow>, patientId: string): (r: Option<PhaseRow>)
    ensures r.None? <==> forall i :: 0 <= i < |rows| ==> rows[i].patientId != patientId
    ensures r.Some? ==> exists i :: 0 <= i < |rows| && rows[i] == r.value && rows[i].patientId == patientId
                          && forall j :: i < j < |rows| ==> rows[j].patientId != patientId
  {
    if rows == [] then None
    else if rows[|rows| - 1].patientId == patientId then Some(rows[|rows| - 1])
    else
      var init := rows[..|rows| - 1];
      var r := LastRowFor(init, patientId);
      assert forall i :: 0 <= i < |init| ==> init[i] == rows[i];
      if r.Some? then
        var i :| 0 <= i < |init| && init[i] == r.value && init[i].patientId == patientId
                 && forall j :: i < j < |init| ==> init[j].patientId != patientId;
        assert rows[i] == r.value;
        r
      else r
  }

  /** The map entry for `k`, as an option. */
  function Get(m: map<string, PhaseRow>, k: string): Option<PhaseRow> {
    if k in m then Some(m[k]) else None
  }

  /** A therapist's patients, newest first (`eq('therapist_id', id).order('created_at', desc)`). */
  function PatientsOf(patients: seq<Patient>, therapistId: string): seq<Patient> {
    SortDesc(Filter(patients, (p: Patient) => p.therapistId == therapistId), PatientTime)
  }

  /** The rows of the listed patients (`in('patient_id', ids)`), in table order. */
  function PhaseQuery(rows: seq<PhaseRow>, ids: seq<string>): seq<PhaseRow> {
    Filter(rows, (r: PhaseRow) => r.patientId in ids)
  }

  /** A patient with the list of phase rows the join attaches. */
  datatype PatientWithPhase = PatientWithPhase(patient: Patient, phases: seq<PhaseRow>)

  /** `[phasesMap.get(id)].filter(Boolean)`. */
  function AsList(r: Option<PhaseRow>): (l: seq<PhaseRow>)
    ensures |l| <= 1 && (r.Some? <==> |l| == 1)
    ensures r.Some? ==> l[0] == r.value
  {
    if r.Some? then [r.value] else []
  }

  /** Keeping only the rows of a set of patients keeps the last row of each of them. */
  lemma {:induction false} LastRowOfQuery(rows: seq<PhaseRow>, ids: seq<string>, patientId: string)
    requires patientId in ids
    ensures LastRowFor(PhaseQuery(rows, ids), patientId) == LastRowFor(rows, patientId)
  {
    if rows != [] {
      var init := rows[..|rows| - 1];
      var last := rows[|rows| - 1];
      assert rows == init + [last];
      FilterConcat(init, [last], (r: PhaseRow) => r.patientId in ids);
      LastRowOfQuery(init, ids, patientId);
      var q := PhaseQuery(rows, ids);
      assert Filter([last], (r: PhaseRow) => r.patientId in ids) == if last.patientId in ids then [last] else [];
      if last.patientId != patientId {
        assert q == PhaseQuery(init, ids) || q[..|q| - 1] == PhaseQuery(init, ids);
      }
    }
  }

  /** The two tables of the store. */
  class PatientStore {
    var patients: seq<Patient>
    var rows: seq<PhaseRow>

    /** Ids are primary keys. */
    predicate Valid()
      reads this
    {
      Distinct(PatientIds(patients)) && Distinct(RowIds(rows))
    }

    constructor()
      ensures Valid() && patients == [] && rows == []
    {
      patients, rows := [], [];
    }

    /** `createInitialPatientPhase(patientId)`, with the generated id, the clock and a storage failure given. */
    method CreateInitialPatientPhase(patientId: string, newId: string, now: int, failure: Option<string>)
      returns (data: Option<PhaseRow>, error: Option<string>)
      requires Valid()
      modifies this
      ensures Valid() && patients == old(patients)
      ensures TableReply(rows, data, error) == CreateInitial(old(rows), patientId, newId, now, failure)
    {
      if failure.Some? {
        return None, failure;
      }
      if newId in RowIds(rows) {
        return None, Some(DuplicateKeyMessage);
      }
      var row := PhaseRow(newId, patientId, 1, now, now);
      InsertKeepsIdsDistinct(rows, row);
      rows := rows + [row];
      data, error := Some(row), None;
    }

    /** `update({fase_numero, phase_start_date}).eq('id', id)`: every row with the id rewritten, one at a time. */
    static method RewritePhase(rows: seq<PhaseRow>, id: string, newPhaseNumber: int, now: int) returns (table: seq<PhaseRow>)
      ensures table == SetPhase(rows, id, newPhaseNumber, now)
    {
      table := rows;
      var i := 0;
      while i < |table|
        invariant 0 <= i <= |table| == |rows|
        invariant forall j :: 0 <= j < i ==> table[j] == SetRow(rows[j], id, newPhaseNumber, now)
        invariant forall j :: i <= j < |table| ==> table[j] == rows[j]
      {
        if table[i].id == id {
          table := table[i := table[i].(faseNumero := newPhaseNumber, phaseStartDate := now)];
        }
        i := i + 1;
      }
    }

    /**
     * `updatePatientCurrentPhase(patientId, phaseId, newPhaseNumber)`; the new
     * number is not checked. `newId` and `createFailure` are the generated id
     * and the outcome of the lazy creation, `now` the clock.
     */
    method UpdatePatientCurrentPhase(patientId: string, phaseId: Option<string>, newPhaseNumber: int,
                                     newId: string, now: int, createFailure: Option<string>)
      returns (data: Option<PhaseRow>, error: Option<string>)
      requires Valid()
      modifies this
      ensures Valid() && patients == old(patients)
      ensures TableReply(rows, data, error)
           == UpdateCurrentPhase(old(rows), patientId, phaseId, newPhaseNumber, newId, now, createFailure)
    {
      UpdateKeepsIdsDistinct(rows, patientId, phaseId, newPhaseNumber, newId, now, createFailure);
      var currentPhaseId := phaseId.GetOr("");
      if currentPhaseId == "" {
        var currentPhase := CurrentPhase(rows, patientId);
        if currentPhase.Some? {
          currentPhaseId := currentPhase.value.id;
        } else {
          var newPhase, createError := CreateInitialPatientPhase(patientId, newId, now, createFailure);
          if createError.Some? {
            return None, createError;
          }
          currentPhaseId := newPhase.value.id;
        }
      }
      rows := RewritePhase(rows, currentPhaseId, newPhaseNumber, now);
      var k := RowIndex(rows, currentPhaseId);
      if k < 0 {
        data, error := None, Some(NoRowMessage);
      } else {
        data, error := Some(rows[k]), None;
      }
    }

    /**
     * `savePatient(patientData)`: a failed or duplicate patient insert
     * changes nothing; otherwise the patient is stored and its first phase is
     * created, whose own failure is not reported.
     */
    method SavePatient(patient: Patient, failure: Option<string>, phaseId: string, now: int, phaseFailure: Option<string>)
      returns (data: Option<Patient>, error: Option<string>)
      requires Valid()
      modifies this
      ensures Valid()
      ensures failure.Some? || patient.id in PatientIds(old(patients)) ==>
        data == None && error.Some? && patients == old(patients) && rows == old(rows)
      ensures failure.None? && patient.id !in PatientIds(old(patients)) ==>
        data == Some(patient) && error == None && patients == old(patients) + [patient]
        && rows == CreateInitial(old(rows), patient.id, phaseId, now, phaseFailure).rows
    {
      if failure.Some? {
        return None, failure;
      }
      if patient.id in PatientIds(patients) {
        return None, Some(DuplicateKeyMessage);
      }
      assert PatientIds(patients + [patient]) == PatientIds(patients) + [patient.id];
      DistinctConcat(PatientIds(patients), [patient.id]);
      patients := patients + [patient];
      var _, _ := CreateInitialPatientPhase(patient.id, phaseId, now, phaseFailure);
      data, error := Some(patient), None;
    }

    /**
     * `getAllPatients(therapistId)`: the therapist's patients newest first,
     * each with the last row of the phase query for it (none when the phase
     * query fails). The two read failures are given.
     */
    method GetAllPatients(therapistId: string, patientsFailure: Option<string>, phasesFailure: bool)
      returns (data: seq<PatientWithPhase>, error: Option<string>)
      ensures therapistId == "" ==> data == [] && error == Some(TherapistRequiredMessage)
      ensures therapistId != "" && patientsFailure.Some? ==> data == [] && error == patientsFailure
      ensures therapistId != "" && patientsFailure.None? ==>
        var mine := PatientsOf(patients, therapistId);
        var query := if phasesFailure then [] else PhaseQuery(rows, PatientIds(mine));
        error == None && |data| == |mine|
        && forall i :: 0 <= i < |mine| ==>
             data[i].patient == mine[i] && data[i].phases == AsList(LastRowFor(query, mine[i].id))
    {
      if therapistId == "" {
        return [], Some(TherapistRequiredMessage);
      }
      if patientsFailure.Some? {
        return [], patientsFailure;
      }
      var mine := PatientsOf(patients, therapistId);
      if |mine| == 0 {
        return [], None;
      }
      var query := if phasesFailure then [] else PhaseQuery(rows, PatientIds(mine));
      var phasesMap := BuildPhaseMap(query);
      data := seq(|mine|, j requires 0 <= j < |mine| => PatientWithPhase(mine[j], AsList(Get(phasesMap, mine[j].id))));
      error := None;
    }
  }

  /** `new Map(phases.map(p => [p.patient_id, p]))`: a later row of the same patient replaces an earlier one. */
  method BuildPhaseMap(query: seq<PhaseRow>) returns (phasesMap: map<string, PhaseRow>)
    ensures forall k :: Get(phasesMap, k) == LastRowFor(query, k)
  {
    phasesMap := map[];
    var i := 0;
    while i < |query|
      invariant 0 <= i <= |query|
      invariant forall k :: Get(phasesMap, k) == LastRowFor(query[..i], k)
    {
      assert query[..i + 1][..i] == query[..i];
      phasesMap := phasesMap[query[i].patientId := query[i]];
      i := i + 1;
    }
    assert query[..i] == query;
  }

  /** The phase the join attaches to a listed patient is the last row of that patient in the table. */
  lemma JoinedPhaseIsLastRow(rows: seq<PhaseRow>, mine: seq<Patient>, i: nat)
    requires i < |mine|
    ensures LastRowFor(PhaseQuery(rows, PatientIds(mine)), mine[i].id) == LastRowFor(rows, mine[i].id)
  {
    assert PatientIds(mine)[i] == mine[i].id;
    LastRowOfQuery(rows, PatientIds(mine), mine[i].id);
  }
}
