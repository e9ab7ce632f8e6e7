/**
 * The journal page and its entry form: the list of entries updated after a
 * save or a delete, the form's visibility and edited entry, and the form's
 * validation, the record it writes and its reset after a new entry.
 */
module Journal {
  import opened Wrappers
  import opened Lists
  import opened Records

  /** The page state of `PatientJournalPage`. */
  class JournalPage {
    var journalEntries: seq<JournalEntry>
    var showForm: bool
    var editingEntry: Option<JournalEntry>
    var deletingEntryId: Option<string>

    constructor()
      ensures journalEntries == [] && !showForm && editingEntry == None && deletingEntryId == None
    {
      journalEntries, showForm, editingEntry, deletingEntryId := [], false, None, None;
    }

    /**
     * `handleSaveSuccess(entry)`: while editing, every entry with the saved
     * id is replaced in place; otherwise the entry goes first. The form is
     * closed either way.
     */
    method HandleSaveSuccess(saved: JournalEntry)
      modifies this`journalEntries, this`showForm, this`editingEntry
      ensures old(editingEntry).Some? ==> journalEntries == ReplaceById(old(journalEntries), EntryId, saved)
      ensures old(editingEntry).None? ==> journalEntries == [saved] + old(journalEntries)
      ensures !showForm && editingEntry == None
    {
      if editingEntry.Some? {
        journalEntries := ReplaceById(journalEntries, EntryId, saved);
      } else {
        journalEntries := [saved] + journalEntries;
      }
      showForm := false;
      editingEntry := None;
    }

    /** `handleEditEntry(entry)`: the form opens on the entry. */
    method HandleEditEntry(entry: JournalEntry)
      modifies this`editingEntry, this`showForm
      ensures editingEntry == Some(entry) && showForm
    {
      editingEntry := Some(entry);
      showForm := true;
    }

    /** `handleDeleteEntry(id)`, with the store's verdict given; no delete is in progress afterwards. */
    method HandleDeleteEntry(entryId: string, success: bool)
      modifies this`journalEntries, this`deletingEntryId
      ensures success ==> journalEntries == RemoveById(old(journalEntries), EntryId, entryId)
      ensures !success ==> journalEntries == old(journalEntries)
      ensures deletingEntryId == None
    {
      deletingEntryId := Some(entryId);
      if success {
        journalEntries := RemoveById(journalEntries, EntryId, entryId);
      }
      deletingEntryId := None;
    }

    /** `toggleFormVisibility()`: closing the form while editing drops the edited entry. */
    method ToggleFormVisibility()
      modifies this`showForm, this`editingEntry
      ensures showForm == !old(showForm)
      ensures editingEntry == if old(showForm) then None else old(editingEntry)
    {
      if showForm && editingEntry.Some? {
        editingEntry := None;
      }
      showForm := !showForm;
    }

    /** `handleCancelEdit()`. */
    method HandleCancelEdit()
      modifies this`showForm, this`editingEntry
      ensures !showForm && editingEntry == None
    {
      editingEntry := None;
      showForm := false;
    }
  }

  /** Saving an edit keeps the list's length and every entry with another id, at its place. */
  lemma EditKeepsOthers(entries: seq<JournalEntry>, saved: JournalEntry, i: nat)
    requires i < |entries|
    ensures |ReplaceById(entries, EntryId, saved)| == |entries|
    ensures entries[i].id != saved.id ==> ReplaceById(entries, EntryId, saved)[i] == entries[i]
    ensures entries[i].id == saved.id ==> ReplaceById(entries, EntryId, saved)[i] == saved
  {
  }

  /** With distinct ids, deleting an existing entry removes exactly one entry. */
  lemma DeleteRemovesOne(entries: seq<JournalEntry>, id: string)
    requires forall i, j :: 0 <= i < j < |entries| ==> entries[i].id != entries[j].id
    requires exists i :: 0 <= i < |entries| && entries[i].id == id
    ensures |RemoveById(entries, EntryId, id)| == |entries| - 1
    ensures forall i :: 0 <= i < |RemoveById(entries, EntryId, id)| ==> RemoveById(entries, EntryId, id)[i].id != id
  {
    RemoveOne(entries, EntryId, id);
  }

  /** What the entry form writes (`entryData`). */
  datatype EntryData = EntryData(
    patientId: string, entryDate: string,
    moodRating: Option<int>, energyLevel: Option<int>, sleepQuality: Option<int>,
    symptoms: string, insights: string)

  /** The entry being edited, as the form receives it; empty texts stand for missing fields. */
  datatype ExistingEntry = ExistingEntry(
    id: string, patientId: string, entryDate: string,
    moodRating: Option<int>, energyLevel: Option<int>, sleepQuality: Option<int>,
    symptoms: string, insights: string)

  /** The write a submission issues. */
  datatype EntryRequest = UpdateEntry(id: string, data: EntryData) | SaveEntry(data: EntryData)

  datatype FormOutcome = MissingPatient | MissingDate | EntrySaved | SaveFailed(message: string)

  /** The state of `JournalEntryForm`. */
  class JournalEntryForm {
    var entryDate: string
    var moodRating: Option<int>
    var energyLevel: Option<int>
    var sleepQuality: Option<int>
    var symptoms: string
    var insights: string
    var isSubmitting: bool

    /** The form is blank: today's date, no ratings and no text. */
    predicate Blank(today: string)
      reads this
    {
      entryDate == today && moodRating == None && energyLevel == None && sleepQuality == None
      && symptoms == "" && insights == ""
    }

    /** The form shows the existing entry. */
    predicate Shows(e: ExistingEntry)
      reads this
    {
      entryDate == e.entryDate && moodRating == e.moodRating && energyLevel == e.energyLevel
      && sleepQuality == e.sleepQuality && symptoms == e.symptoms && insights == e.insights
    }

    constructor(today: string)
      ensures Blank(today) && !isSubmitting
    {
      entryDate, moodRating, energyLevel, sleepQuality := today, None, None, None;
      symptoms, insights, isSubmitting := "", "", false;
    }

    /** The effect on a new `existingEntry`: the form shows it, or is blank. */
    method SyncEntry(existing: Option<ExistingEntry>, today: string)
      modifies this`entryDate, this`moodRating, this`energyLevel, this`sleepQuality, this`symptoms, this`insights
      ensures existing.Some? ==> Shows(existing.value)
      ensures existing.None? ==> Blank(today)
    {
      if existing.Some? {
        var e := existing.value;
        entryDate, moodRating, energyLevel, sleepQuality := e.entryDate, e.moodRating, e.energyLevel, e.sleepQuality;
        symptoms, insights := e.symptoms, e.insights;
      } else {
        entryDate, moodRating, energyLevel, sleepQuality := today, None, None, None;
        symptoms, insights := "", "";
      }
    }

    /** The record the form writes. */
    function EntryDataFor(patientId: string, existing: Option<ExistingEntry>): (d: EntryData)
      reads this
      ensures d.patientId == if existing.Some? then existing.value.patientId else patientId
      ensures d.entryDate == entryDate && d.symptoms == symptoms && d.insights == insights
      ensures d.moodRating == moodRating && d.energyLevel == energyLevel && d.sleepQuality == sleepQuality
    {
      EntryData(if existing.Some? then existing.value.patientId else patientId,
                entryDate, moodRating, energyLevel, sleepQuality, symptoms, insights)
    }

    /**
     * `handleSubmit()`, with the store's failure given: a patient id (the
     * prop's or the entry's) and a date are required; an entry with an id is
     * updated, any other is saved as new; after a new entry is saved the form
     * is blank again.
     */
    method HandleSubmit(patientId: string, existing: Option<ExistingEntry>, saveError: Option<string>, today: string)
      returns (request: Option<EntryRequest>, outcome: FormOutcome)
      modifies this
      ensures !isSubmitting
      ensures outcome == MissingPatient <==> patientId == "" && (existing.None? || existing.value.patientId == "")
      ensures outcome == MissingDate <==> !(patientId == "" && (existing.None? || existing.value.patientId == "")) && old(entryDate) == ""
      ensures request.None? <==> outcome in {MissingPatient, MissingDate}
      ensures request.Some? && existing.Some? && existing.value.id != "" ==>
        request == Some(UpdateEntry(existing.value.id, old(EntryDataFor(patientId, existing))))
      ensures request.Some? && !(existing.Some? && existing.value.id != "") ==>
        request == Some(SaveEntry(old(EntryDataFor(patientId, existing))))
      ensures request.Some? ==> outcome == if saveError.None? then EntrySaved else SaveFailed(FailureMessage(saveError.value, existing.Some?))
      ensures outcome == EntrySaved && existing.None? ==> Blank(today)
      ensures !(outcome == EntrySaved && existing.None?) ==>
        entryDate == old(entryDate) && moodRating == old(moodRating) && energyLevel == old(energyLevel)
        && sleepQuality == old(sleepQuality) && symptoms == old(symptoms) && insights == old(insights)
    {
      isSubmitting := true;
      if patientId == "" && (existing.None? || existing.value.patientId == "") {
        isSubmitting := false;
        return None, MissingPatient;
      }
      if entryDate == "" {
        isSubmitting := false;
        return None, MissingDate;
      }
      var entryData := EntryDataFor(patientId, existing);
      if existing.Some? && existing.value.id != "" {
        request := Some(UpdateEntry(existing.value.id, entryData));
      } else {
        request := Some(SaveEntry(entryData));
      }
      if saveError.None? {
        outcome := EntrySaved;
        if existing.None? {
          moodRating, energyLevel, sleepQuality := None, None, None;
          symptoms, insights := "", "";
          entryDate := today;
        }
      } else {
        outcome := SaveFailed(FailureMessage(saveError.value, existing.Some?));
      }
      isSubmitting := false;
    }
  }

  /** The message of a failed write: the store's, or one that says whether it was an edit. */
  function FailureMessage(error: string, editing: bool): (m: string)
    ensures m != ""
    ensures error != "" ==> m == error
  {
    if error != "" then error
    else if editing then "Falha ao atualizar entrada." else "Falha ao salvar entrada."
  }
}
