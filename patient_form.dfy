/**
 * The patient form hook: field changes, the preselected therapist, and the
 * submission that checks the email, converts the birth date and then either
 * creates a patient for the logged-in therapist or updates the edited one.
 */
module PatientForm {
  import opened Wrappers
  import opened Records

  /** The form fields by name (`formData`). */
  type FormData = map<string, string>

  const FieldNames: seq<string> :=
    ["name", "email", "phone", "birth_date", "address", "profession", "gender", "marital_status", "therapist_id"]

  /** The initial form: every field empty. */
  function InitialForm(): (f: FormData)
    ensures forall k :: k in f <==> k in FieldNames
    ensures forall k :: k in f ==> f[k] == ""
  {
    map k | k in FieldNames :: ""
  }

  /** `formData[key]`, empty when the field is missing. */
  function FieldOf(f: FormData, key: string): string {
    if key in f then f[key] else ""
  }

  datatype Mode = Create | Edit

  /** `patients.some(p => p.email === formData.email && p.id !== patientId)`; there is no route id in create mode. */
  predicate IsEmailDuplicate(patients: seq<Patient>, email: string, routeId: Option<string>) {
    exists i :: 0 <= i < |patients| && patients[i].email == email && (routeId.None? || patients[i].id != routeId.value)
  }

  /** What is written: the form with the converted birth date (`dataToSave`). */
  datatype SaveData = SaveData(fields: FormData, birthDate: Option<string>)

  /** The write a submission issues. */
  datatype SaveRequest = CreatePatient(data: SaveData) | UpdatePatient(id: Option<string>, data: SaveData)

  /** How a submission ends; a saved patient sends the user back to the dashboard. */
  datatype SubmitOutcome = DuplicateEmail | InvalidBirthDate | NotAuthenticated | Saved | SaveFailed(message: string)

  const CreateFailedMessage: string := "Não foi possível salvar o paciente."
  const UpdateFailedMessage: string := "Não foi possível atualizar os dados do paciente."

  /** The state of `usePatientFormLogic`. */
  class PatientFormLogic {
    var formData: FormData
    var isSaving: bool
    var therapistIds: seq<string>
    var patients: seq<Patient>

    constructor()
      ensures formData == InitialForm() && !isSaving && therapistIds == [] && patients == []
    {
      formData, isSaving, therapistIds, patients := InitialForm(), false, [], [];
    }

    /** `handleInputChange` and `handleSelectChange`: the named field takes the value, the others stay. */
    method HandleFieldChange(name: string, value: string)
      modifies this`formData
      ensures formData == old(formData)[name := value]
      ensures forall k :: k != name && k in old(formData) ==> k in formData && formData[k] == old(formData)[k]
    {
      formData := formData[name := value];
    }

    /** `handleDateChange(date)`, with the date already formatted as dd/MM/yyyy, or none. */
    method HandleDateChange(formatted: Option<string>)
      modifies this`formData
      ensures formData == old(formData)["birth_date" := formatted.GetOr("")]
    {
      formData := formData["birth_date" := formatted.GetOr("")];
    }

    /**
     * The loaded therapist and patient lists; in create mode the therapist
     * whose id is the user's id is preselected when there is one. Without a
     * logged-in user nothing is fetched and nothing changes, whatever the
     * replies say.
     */
    method LoadLists(mode: Mode, userId: Option<string>, therapists: Option<seq<string>>, allPatients: Option<seq<Patient>>)
      modifies this`formData, this`therapistIds, this`patients
      ensures userId.None? ==>
        formData == old(formData) && therapistIds == old(therapistIds) && patients == old(patients)
      ensures userId.Some? ==>
        therapistIds == (if therapists.Some? then therapists.value else old(therapistIds))
      ensures userId.Some? ==>
        patients == (if allPatients.Some? then allPatients.value else old(patients))
      ensures therapists.Some? && mode == Create && userId.Some? && userId.value != "" && userId.value in therapists.value ==>
        formData == old(formData)["therapist_id" := userId.value]
      ensures !(therapists.Some? && mode == Create && userId.Some? && userId.value != "" && userId.value in therapists.value) ==>
        formData == old(formData)
    {
      if userId.None? {
        return;
      }
      if therapists.Some? {
        therapistIds := therapists.value;
        if mode == Create && userId.Some? && userId.value != "" {
          var i := 0;
          while i < |therapists.value|
            invariant 0 <= i <= |therapists.value|
            invariant userId.value !in therapists.value[..i]
          {
            if therapists.value[i] == userId.value {
              formData := formData["therapist_id" := therapists.value[i]];
              break;
            }
            i := i + 1;
          }
          if i == |therapists.value| {
            assert therapists.value[..i] == therapists.value;
          }
        }
      }
      if allPatients.Some? {
        patients := allPatients.value;
      }
    }

    /**
     * `handleSubmit()`: `routeId` is the edited patient's id, `parsedBirthDate`
     * the ISO text of the typed birth date when it is a valid dd/MM/yyyy date,
     * `userId` the logged-in user and `saveError` the store's reply.
     */
    method HandleSubmit(mode: Mode, routeId: Option<string>, userId: Option<string>,
                        parsedBirthDate: Option<string>, saveError: Option<string>)
      returns (request: Option<SaveRequest>, outcome: SubmitOutcome)
      modifies this`isSaving
      ensures !isSaving
      ensures outcome == DuplicateEmail <==> IsEmailDuplicate(patients, FieldOf(formData, "email"), routeId)
      ensures outcome == InvalidBirthDate <==>
        !IsEmailDuplicate(patients, FieldOf(formData, "email"), routeId)
        && FieldOf(formData, "birth_date") != "" && parsedBirthDate.None?
      ensures outcome == NotAuthenticated <==>
        !IsEmailDuplicate(patients, FieldOf(formData, "email"), routeId)
        && !(FieldOf(formData, "birth_date") != "" && parsedBirthDate.None?)
        && mode == Create && (userId.None? || userId.value == "")
      ensures outcome in {DuplicateEmail, InvalidBirthDate, NotAuthenticated} <==> request.None?
      ensures request.Some? ==>
        request.value.data.birthDate == (if FieldOf(formData, "birth_date") == "" then None else parsedBirthDate)
      ensures request.Some? && mode == Create ==>
        userId.Some? && userId.value != "" && request.value == CreatePatient(SaveData(formData["therapist_id" := userId.value], request.value.data.birthDate))
      ensures request.Some? && mode == Edit ==>
        request.value == UpdatePatient(routeId, SaveData(formData, request.value.data.birthDate))
      ensures request.Some? ==>
        outcome == if saveError.None? then Saved
                   else SaveFailed(if saveError.value != "" then saveError.value
                                   else if mode == Create then CreateFailedMessage else UpdateFailedMessage)
    {
      isSaving := true;
      var i := 0;
      var duplicate := false;
      while i < |patients| && !duplicate
        invariant 0 <= i <= |patients|
        invariant duplicate <==> IsEmailDuplicate(patients[..i], FieldOf(formData, "email"), routeId)
      {
        assert patients[..i + 1][..i] == patients[..i];
        var p := patients[i];
        duplicate := p.email == FieldOf(formData, "email") && (routeId.None? || p.id != routeId.value);
        if duplicate { assert patients[..i + 1][i] == p; }
        i := i + 1;
      }
      assert duplicate ==> IsEmailDuplicate(patients, FieldOf(formData, "email"), routeId) by {
        if duplicate {
          var j :| 0 <= j < i && patients[..i][j].email == FieldOf(formData, "email")
                   && (routeId.None? || patients[..i][j].id != routeId.value);
          assert patients[j] == patients[..i][j];
        }
      }
      if !duplicate { assert patients[..i] == patients; }
      if duplicate {
        isSaving := false;
        return None, DuplicateEmail;
      }
      var birthDateForDb: Option<string> := None;
      if FieldOf(formData, "birth_date") != "" {
        if parsedBirthDate.None? {
          isSaving := false;
          return None, InvalidBirthDate;
        }
        birthDateForDb := parsedBirthDate;
      }
      var dataToSave := SaveData(formData, birthDateForDb);
      if mode == Create {
        if userId.None? || userId.value == "" {
          isSaving := false;
          return None, NotAuthenticated;
        }
        dataToSave := dataToSave.(fields := dataToSave.fields["therapist_id" := userId.value]);
        request := Some(CreatePatient(dataToSave));
        outcome := if saveError.None? then Saved
                   else SaveFailed(if saveError.value != "" then saveError.value else CreateFailedMessage);
      } else {
        request := Some(UpdatePatient(routeId, dataToSave));
        outcome := if saveError.None? then Saved
                   else SaveFailed(if saveError.value != "" then saveError.value else UpdateFailedMessage);
      }
      isSaving := false;
    }
  }

  /** Two patients without an email clash: an empty email is a duplicate when another patient has none. */
  lemma EmptyEmailsClash(patients: seq<Patient>, i: nat, routeId: Option<string>)
    requires i < |patients| && patients[i].email == ""
    requires routeId.None? || patients[i].id != routeId.value
    ensures IsEmailDuplicate(patients, "", routeId)
  {
  }

  /** In create mode every patient with the same email is a duplicate, the form's own list included. */
  lemma CreateChecksEveryone(patients: seq<Patient>, email: string)
    ensures IsEmailDuplicate(patients, email, None) <==> exists i :: 0 <= i < |patients| && patients[i].email == email
  {
  }
}
