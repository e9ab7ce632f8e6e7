/**
 * The therapist management card: the form that opens blank or on a
 * therapist, the submission that validates the name and adds or updates,
 * and the list kept sorted by name and trimmed after a removal.
 */
module Therapists {
  import opened Wrappers
  import opened Strings
  import opened Lists
  import opened Sorting
  import opened Utils

  /** A therapist row; the contact fields may be missing. */
  datatype Therapist = Therapist(id: string, name: string, email: Option<string>, phone: Option<string>,
                                 specialty: Option<string>, createdAt: int, ownerUserId: Option<string>)

  function TherapistId(t: Therapist): string { t.id }

  /** The four form fields. */
  datatype TherapistForm = TherapistForm(name: string, email: string, phone: string, specialty: string)

  const BlankForm: TherapistForm := TherapistForm("", "", "", "")

  datatype FormMode = Add | Edit

  /** The name of an input of the form. */
  datatype Field = NameField | EmailField | PhoneField | SpecialtyField

  /** The form showing a therapist, a missing field as empty. */
  function FormOf(t: Therapist): (f: TherapistForm)
    ensures f.name == t.name && f.email == t.email.GetOr("") && f.phone == t.phone.GetOr("")
    ensures f.specialty == t.specialty.GetOr("")
  {
    TherapistForm(t.name, t.email.GetOr(""), t.phone.GetOr(""), t.specialty.GetOr(""))
  }

  /** `a.name.localeCompare(b.name) < 0`, with code-point order for the locale's. */
  function ByName(): (Therapist, Therapist) -> bool {
    (a: Therapist, b: Therapist) => Less(a.name, b.name)
  }

  /** The list as fetched: sorted by name; a failed fetch gives the empty list. */
  function FetchedList(reply: Option<seq<Therapist>>): (r: seq<Therapist>)
    ensures reply.None? ==> r == []
    ensures reply.Some? ==> multiset(r) == multiset(reply.value)
  {
    if reply.Some? then SortBy(reply.value, ByName()) else []
  }

  /** Therapists with distinct names are listed in increasing name order. */
  lemma FetchedListSorted(list: seq<Therapist>)
    requires forall i, j :: 0 <= i < j < |list| ==> list[i].name != list[j].name
    ensures forall i, j :: 0 <= i < j < |FetchedList(Some(list))| ==>
      Less(FetchedList(Some(list))[i].name, FetchedList(Some(list))[j].name)
  {
    var before := ByName();
    assert Distinct(list) by {
      forall i, j | 0 <= i < j < |list| ensures list[i] != list[j] {
        assert list[i].name != list[j].name;
      }
    }
    forall a | a in list ensures !before(a, a) {
      LessIrreflexive(a.name);
    }
    forall a, b | a in list && b in list && a != b ensures before(a, b) || before(b, a) {
      var i :| 0 <= i < |list| && list[i] == a;
      var j :| 0 <= j < |list| && list[j] == b;
      assert i != j;
      assert a.name != b.name;
      LessTotal(a.name, b.name);
    }
    forall a, b, c | a in list && b in list && c in list && before(a, b) && before(b, c) ensures before(a, c) {
      LessTransitive(a.name, b.name, c.name);
    }
    SortByStrictlySorted(list, before);
  }

  /** The toast text after a submission: the store's message, or the default for the outcome and mode. */
  function SubmitMessage(mode: FormMode, result: SaveResult): (m: string)
    ensures result.message != "" ==> m == result.message
    ensures result.message == "" && result.success && result.hasTherapist ==>
      m == (if mode == Edit then "Terapeuta atualizado com sucesso!" else "Terapeuta adicionado com sucesso!")
    ensures result.message == "" && !(result.success && result.hasTherapist) ==>
      m == "Não foi possível " + (if mode == Edit then "atualizar" else "adicionar") + " o terapeuta. Verifique os dados e tente novamente."
  {
    if result.message != "" then result.message
    else if result.success && result.hasTherapist then
      (if mode == Edit then "Terapeuta atualizado com sucesso!" else "Terapeuta adicionado com sucesso!")
    else "Não foi possível " + (if mode == Edit then "atualizar" else "adicionar") + " o terapeuta. Verifique os dados e tente novamente."
  }

  /** The write a submission issues. */
  datatype TherapistRequest = UpdateTherapist(id: string, form: TherapistForm) | SaveTherapist(form: TherapistForm)

  /** The store's answer: `success`, whether a therapist came back, and its message. */
  datatype SaveResult = SaveResult(success: bool, hasTherapist: bool, message: string)

  /** The state of `TherapistManagement`. */
  class TherapistManagement {
    var therapists: seq<Therapist>
    var isFormOpen: bool
    var currentTherapist: Option<Therapist>
    var formData: TherapistForm
    var formMode: FormMode
    var isSubmitting: bool
    var isFetching: bool

    constructor()
      ensures therapists == [] && !isFormOpen && currentTherapist == None && formData == BlankForm
      ensures formMode == Add && !isSubmitting && isFetching
    {
      therapists, isFormOpen, currentTherapist, formData := [], false, None, BlankForm;
      formMode, isSubmitting, isFetching := Add, false, true;
    }

    /** `fetchTherapistsData()`: `reply` is the store's list, `None` when it failed. */
    method FetchTherapistsData(reply: Option<seq<Therapist>>)
      modifies this`therapists, this`isFetching
      ensures therapists == FetchedList(reply) && !isFetching
    {
      isFetching := true;
      if reply.None? {
        therapists := [];
      } else {
        therapists := SortBy(reply.value, ByName());
      }
      isFetching := false;
    }

    /** `handleInputChange`: only the named field changes. */
    method HandleInputChange(field: Field, value: string)
      modifies this`formData
      ensures formData == match field
        case NameField => old(formData).(name := value)
        case EmailField => old(formData).(email := value)
        case PhoneField => old(formData).(phone := value)
        case SpecialtyField => old(formData).(specialty := value)
    {
      match field
      case NameField => formData := formData.(name := value);
      case EmailField => formData := formData.(email := value);
      case PhoneField => formData := formData.(phone := value);
      case SpecialtyField => formData := formData.(specialty := value);
    }

    /** `handleOpenForm(mode, therapist)`: editing a given therapist copies it, any other opening is blank. */
    method HandleOpenForm(mode: FormMode, therapist: Option<Therapist>)
      modifies this`formMode, this`currentTherapist, this`formData, this`isFormOpen
      ensures formMode == mode && isFormOpen
      ensures mode == Edit && therapist.Some? ==> currentTherapist == therapist && formData == FormOf(therapist.value)
      ensures !(mode == Edit && therapist.Some?) ==> currentTherapist == None && formData == BlankForm
    {
      formMode := mode;
      if mode == Edit && therapist.Some? {
        currentTherapist := therapist;
        formData := FormOf(therapist.value);
      } else {
        currentTherapist := None;
        formData := BlankForm;
      }
      isFormOpen := true;
    }

    /**
     * `handleSubmitForm()`, with the store's result and the list fetched
     * after a success given: an edit with a current therapist is an update,
     * anything else an addition; the form closes only on a success that
     * returned a therapist.
     */
    method HandleSubmitForm(result: SaveResult, refetched: Option<seq<Therapist>>)
      returns (request: Option<TherapistRequest>)
      modifies this`therapists, this`isFormOpen, this`isSubmitting, this`isFetching
      ensures IsBlank(formData.name) ==> request.None? && unchanged(this)
      ensures !IsBlank(formData.name) ==> request.Some? && !isSubmitting
      ensures request.Some? && formMode == Edit && currentTherapist.Some? ==>
        request.value == UpdateTherapist(currentTherapist.value.id, formData)
      ensures request.Some? && !(formMode == Edit && currentTherapist.Some?) ==> request.value == SaveTherapist(formData)
      ensures request.Some? && result.success && result.hasTherapist ==>
        therapists == FetchedList(refetched) && !isFormOpen && !isFetching
      ensures request.Some? && !(result.success && result.hasTherapist) ==>
        therapists == old(therapists) && isFormOpen == old(isFormOpen) && isFetching == old(isFetching)
    {
      if IsBlank(formData.name) {
        return None;
      }
      isSubmitting := true;
      if formMode == Edit && currentTherapist.Some? {
        request := Some(UpdateTherapist(currentTherapist.value.id, formData));
      } else {
        request := Some(SaveTherapist(formData));
      }
      if result.success && result.hasTherapist {
        FetchTherapistsData(refetched);
        isFormOpen := false;
      }
      isSubmitting := false;
    }

    /** `handleDeleteTherapist(id)`, with the store's verdict given. */
    method HandleDeleteTherapist(therapistId: string, success: bool)
      modifies this`therapists, this`isSubmitting
      ensures success ==> therapists == RemoveById(old(therapists), TherapistId, therapistId)
      ensures !success ==> therapists == old(therapists)
      ensures !isSubmitting
    {
      isSubmitting := true;
      if success {
        therapists := RemoveById(therapists, TherapistId, therapistId);
      }
      isSubmitting := false;
    }
  }

  /** The columns of the therapist export, in order. */
  const ExportColumns: seq<string> := ["ID_Terapeuta", "Nome_Completo", "Email", "Telefone",
    "Especialidade_Principal", "Data_de_Cadastro", "ID_Usuario_Proprietario_Sistema"]

  /** One exported row; `formatDate` stands for `toLocaleDateString('pt-BR')`. */
  function ExportRow(t: Therapist, formatDate: int -> string): (r: Row)
    ensures RowKeys(r) == ExportColumns
  {
    [("ID_Terapeuta", Some(t.id)), ("Nome_Completo", Some(t.name)), ("Email", t.email), ("Telefone", t.phone),
     ("Especialidade_Principal", t.specialty), ("Data_de_Cadastro", Some(formatDate(t.createdAt))),
     ("ID_Usuario_Proprietario_Sistema", t.ownerUserId)]
  }

  function ExportRows(list: seq<Therapist>, formatDate: int -> string): (r: seq<Row>)
    ensures |r| == |list| && forall i :: 0 <= i < |list| ==> r[i] == ExportRow(list[i], formatDate)
  {
    seq(|list|, i requires 0 <= i < |list| => ExportRow(list[i], formatDate))
  }

  /** `handleExportTherapists()`: nothing for an empty list, otherwise the CSV of the rows. */
  method HandleExportTherapists(list: seq<Therapist>, formatDate: int -> string) returns (csv: Option<string>)
    ensures list == [] ==> csv.None?
    ensures list != [] ==> csv == Some(Join(CsvLines(ExportColumns, ExportRows(list, formatDate)), "\r\n"))
  {
    if |list| == 0 {
      return None;
    }
    var rows := ExportRows(list, formatDate);
    ColumnsDistinct();
    SameKeysHeader(rows, ExportColumns);
    csv := ExportToCsv(rows);
  }

  /** The export columns are seven different names. */
  lemma ColumnsDistinct()
    ensures Distinct(ExportColumns)
  {
  }

  /** Rows that all have the same duplicate-free keys give those keys as the header. */
  lemma {:induction false} SameKeysHeader(rows: seq<Row>, keys: seq<string>)
    requires Distinct(keys)
    requires rows != [] && forall i :: 0 <= i < |rows| ==> RowKeys(rows[i]) == keys
    ensures Dedup(AllKeys(rows)) == keys
  {
    var init := rows[..|rows| - 1];
    assert AllKeys(rows) == AllKeys(init) + keys;
    if init == [] {
      assert AllKeys(rows) == keys;
      DedupDistinct(keys);
    } else {
      forall i | 0 <= i < |init| ensures RowKeys(init[i]) == keys {
        assert init[i] == rows[i];
      }
      SameKeysHeader(init, keys);
      DedupAbsorbs(AllKeys(init), keys);
    }
  }

  /** A duplicate-free list is its own deduplication. */
  lemma {:induction false} DedupDistinct(s: seq<string>)
    requires Distinct(s)
    ensures Dedup(s) == s
  {
    if s != [] {
      var init := s[..|s| - 1];
      assert Distinct(init);
      DedupDistinct(init);
      assert s[|s| - 1] !in init;
    }
  }

  /** Appending values already present leaves the deduplication as it was. */
  lemma {:induction false} DedupAbsorbs(s: seq<string>, t: seq<string>)
    requires forall x :: x in t ==> x in Dedup(s)
    ensures Dedup(s + t) == Dedup(s)
  {
    if t != [] {
      var init, last := t[..|t| - 1], t[|t| - 1];
      assert s + t == (s + init) + [last];
      assert last in t;
      forall x | x in init ensures x in Dedup(s) {
        assert x in t;
      }
      DedupAbsorbs(s, init);
      DedupSnoc(s + init, last);
    } else {
      assert s + t == s;
    }
  }
}
