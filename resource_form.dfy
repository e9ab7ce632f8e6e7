/**
 * The resource form: the fields shown for a new or an existing resource,
 * and the submission that checks the title, uploads a chosen file for the
 * upload types, and then inserts or updates the resource row.
 */
module ResourceForm {
  import opened Wrappers
  import opened Strings
  import opened Resources
  import opened Storage

  /** The values of the type selector, in order. */
  const ResourceTypes: seq<string> := [
    "meditation_audio_script", "audio_link", "video_link", "pdf_link", "article_text",
    "audio_upload", "pdf_upload", "image_upload", "external_link"
  ]

  /** The values of the category selector, in order. */
  const ResourceCategories: seq<string> := [
    "Fórmulas Lumina Restauris", "Meditações e Práticas Energéticas", "Conceitos Fundamentais",
    "Guias e E-books", "Ferramentas de Acompanhamento", "Práticas Complementares",
    "Alimentação e Nutrição Quântica", "Terapias Vibracionais", "Outros"
  ]

  const DefaultIcon: string := "Default"

  /** The values of the phase selector: none, then the six phases. */
  const PhaseAssociationOptions: seq<string> := ["", "1", "2", "3", "4", "5", "6"]

  /** The form's fields, all text; `phaseAssociation` is `""` for no phase. */
  datatype FormData = FormData(title: string, description: string, content: string, category: string,
                               kind: string, mediaUrl: string, iconName: string, phaseAssociation: string)

  const InitialForm: FormData := FormData("", "", "", ResourceCategories[0], ResourceTypes[0], "", DefaultIcon, "")

  /** `phase_association?.toString() || ''`. */
  function PhaseText(p: Option<int>): (s: string)
    ensures p.None? <==> s == ""
  {
    if p.Some? then IntToString(p.value) else ""
  }

  /** The fields shown for `existingResource`: each column, or its default when it is empty; none gives the initial form. */
  function FormFor(existing: Option<Resource>): (f: FormData)
    ensures existing.None? ==> f == InitialForm
    ensures existing.Some? ==> var r := existing.value;
      f.title == r.title && f.description == OrElse(r.description, "") && f.content == OrElse(r.content, "") &&
      f.category == OrElse(r.category, ResourceCategories[0]) &&
      f.kind == (if r.kind != "" then r.kind else ResourceTypes[0]) &&
      f.mediaUrl == OrElse(r.mediaUrl, "") && f.iconName == OrElse(r.iconName, DefaultIcon) &&
      f.phaseAssociation == PhaseText(r.phaseAssociation)
  {
    if existing.None? then InitialForm
    else
      var r := existing.value;
      FormData(r.title, OrElse(r.description, ""), OrElse(r.content, ""), OrElse(r.category, ResourceCategories[0]),
               if r.kind != "" then r.kind else ResourceTypes[0], OrElse(r.mediaUrl, ""),
               OrElse(r.iconName, DefaultIcon), PhaseText(r.phaseAssociation))
  }

  /** `phase_association ? parseInt(phase_association) : null`. */
  function PhaseValue(s: string): (p: Option<int>)
    ensures s == "" ==> p.None?
    ensures s != "" ==> p == ParseInt(s)
  {
    if s == "" then None else ParseInt(s)
  }

  /** The phase of a resource survives the trip through the form. */
  lemma PhaseRoundTrip(p: Option<int>)
    ensures PhaseValue(PhaseText(p)) == p
  {
    if p.Some? {
      IntToStringRoundTrip(p.value);
    }
  }

  /** Every phase the selector offers is stored as the matching number, or nothing for the first option. */
  lemma SelectorPhases(i: nat)
    requires i < |PhaseAssociationOptions|
    ensures PhaseValue(PhaseAssociationOptions[i]) == if i == 0 then None else Some(i)
  {
    if i > 0 {
      IntToStringRoundTrip(i);
      assert IntToString(i) == PhaseAssociationOptions[i];
    }
  }

  /** `isUploadType(type)`. */
  predicate IsUploadType(kind: string) {
    kind == "audio_upload" || kind == "pdf_upload" || kind == "image_upload"
  }

  /** Of the selectable types, exactly the last three before the external link are uploads. */
  lemma UploadTypes()
    ensures forall i :: 0 <= i < |ResourceTypes| ==> (IsUploadType(ResourceTypes[i]) <==> 5 <= i <= 7)
  {
  }

  /** The row written for the form: its fields, the media path, and the phase as a number. */
  datatype ResourceData = ResourceData(title: string, description: string, content: string, category: string,
                                       kind: string, mediaUrl: string, iconName: string, phaseAssociation: Option<int>)

  function DataFor(f: FormData, mediaPath: string): (d: ResourceData)
    ensures d.mediaUrl == mediaPath && d.phaseAssociation == PhaseValue(f.phaseAssociation)
    ensures d.title == f.title && d.kind == f.kind && d.category == f.category
  {
    ResourceData(f.title, f.description, f.content, f.category, f.kind, mediaPath, f.iconName, PhaseValue(f.phaseAssociation))
  }

  /** Saving an unchanged form for a resource writes back its phase. */
  lemma SavedPhaseUnchanged(r: Resource, mediaPath: string)
    ensures DataFor(FormFor(Some(r)), mediaPath).phaseAssociation == r.phaseAssociation
  {
    PhaseRoundTrip(r.phaseAssociation);
  }

  /** The write a submission issues. */
  datatype Request = UpdateResource(id: string, data: ResourceData) | InsertResource(data: ResourceData)

  /** How a submission ends. */
  datatype SubmitOutcome = TitleRequired | UploadFailed(message: string) | Saved(title: string) | SaveFailed(message: string)

  const SaveFailedMessage: string := "Não foi possível salvar o recurso. Tente novamente."

  /** The description of a failed save (`error.message || ...`). */
  function SaveFailureMessage(error: string): (m: string)
    ensures m != ""
    ensures error != "" ==> m == error
    ensures error == "" ==> m == SaveFailedMessage
  {
    if error != "" then error else SaveFailedMessage
  }

  /** An upload made by the submission: the key and the file. */
  datatype Upload = Upload(key: string, file: string)

  /** `${random}_${now}.${ext}`: `stem` is the random and clock part. */
  function UploadName(stem: string, file: string): string {
    stem + "." + AfterLast(file, '.')
  }

  /** The upload keeps the file's extension: the text after its last dot, which holds no dot. */
  lemma UploadExtension(stem: string, file: string)
    ensures var ext := AfterLast(file, '.');
      UploadName(stem, file) == stem + "." + ext && '.' !in ext && |ext| <= |file| && ext == file[|file| - |ext|..] &&
      (|ext| < |file| ==> file[|file| - |ext| - 1] == '.')
  {
    AfterLastSuffix(file, '.');
  }

  /** The state of `ResourceForm`. */
  class ResourceFormState {
    var formData: FormData
    var isSubmitting: bool
    var fileToUpload: Option<string>
    var isOpen: bool

    constructor(open: bool)
      ensures formData == InitialForm && !isSubmitting && fileToUpload.None? && isOpen == open
    {
      formData, isSubmitting, fileToUpload, isOpen := InitialForm, false, None, open;
    }

    /** The effect on `existingResource` and `isOpen`: the form shows the resource and no file is chosen. */
    method Sync(existing: Option<Resource>)
      modifies this`formData, this`fileToUpload
      ensures formData == FormFor(existing) && fileToUpload.None?
    {
      formData := FormFor(existing);
      fileToUpload := None;
    }

    /** `handleFileChange(e)`: a chosen file becomes the upload and its name is shown as the media URL. */
    method HandleFileChange(file: Option<string>)
      modifies this`fileToUpload, this`formData
      ensures file.Some? ==> fileToUpload == file && formData == old(formData).(mediaUrl := file.value)
      ensures file.None? ==> fileToUpload == old(fileToUpload) && formData == old(formData)
    {
      if file.Some? {
        fileToUpload := file;
        formData := formData.(mediaUrl := file.value);
      }
    }

    /**
     * `handleSubmit(e)`: `stem` names the upload, `project` is the storage
     * project, `uploadError` and `saveError` are the storage's and the
     * table's failures, `savedTitle` the title of the row the table returns.
     */
    method HandleSubmit(existing: Option<Resource>, stem: string, project: string, uploadError: Option<string>,
                        saveError: Option<string>, savedTitle: string)
      returns (upload: Option<Upload>, request: Option<Request>, outcome: SubmitOutcome)
      modifies this`isSubmitting, this`isOpen
      ensures IsBlank(formData.title) ==>
        upload.None? && request.None? && outcome == TitleRequired && isSubmitting == old(isSubmitting) && isOpen == old(isOpen)
      ensures !IsBlank(formData.title) ==> !isSubmitting
      ensures !IsBlank(formData.title) ==>
        (upload.Some? <==> fileToUpload.Some? && IsUploadType(formData.kind))
      ensures upload.Some? ==> upload.value == Upload(UploadKey(UploadName(stem, fileToUpload.value)), fileToUpload.value)
      ensures upload.Some? && uploadError.Some? ==>
        request.None? && outcome == UploadFailed(uploadError.value) && isOpen == old(isOpen)
      ensures request.Some? ==>
        var path := if upload.Some? then PublicUrl(project, upload.value.key) else formData.mediaUrl;
        var data := DataFor(formData, path);
        request.value == (if existing.Some? then UpdateResource(existing.value.id, data) else InsertResource(data))
      ensures !IsBlank(formData.title) && !(upload.Some? && uploadError.Some?) ==> request.Some?
      ensures request.Some? && saveError.None? ==> outcome == Saved(savedTitle) && !isOpen
      ensures request.Some? && saveError.Some? ==> outcome == SaveFailed(SaveFailureMessage(saveError.value)) && isOpen == old(isOpen)
    {
      if IsBlank(formData.title) {
        return None, None, TitleRequired;
      }
      isSubmitting := true;
      var mediaPath := formData.mediaUrl;
      upload := None;
      if fileToUpload.Some? && IsUploadType(formData.kind) {
        var fileName := UploadName(stem, fileToUpload.value);
        var filePath := UploadKey(fileName);
        upload := Some(Upload(filePath, fileToUpload.value));
        if uploadError.Some? {
          isSubmitting := false;
          return upload, None, UploadFailed(uploadError.value);
        }
        mediaPath := PublicUrl(project, filePath);
      }
      var data := DataFor(formData, mediaPath);
      if existing.Some? {
        request := Some(UpdateResource(existing.value.id, data));
      } else {
        request := Some(InsertResource(data));
      }
      if saveError.None? {
        outcome := Saved(savedTitle);
        isOpen := false;
      } else {
        outcome := SaveFailed(SaveFailureMessage(saveError.value));
      }
      isSubmitting := false;
    }
  }
}
