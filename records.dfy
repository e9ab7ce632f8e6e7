/**
 * The stored records the pages work on: patients, assessments and journal
 * entries, with timestamps as integers (milliseconds).
 */
module Records {
  import opened Wrappers
  import opened Catalog

  /** A patient row; `birthDate` is the stored ISO date, absent when none was given. */
  datatype Patient = Patient(
    id: string, name: string, email: string, phone: string, birthDate: Option<string>,
    therapistId: string, createdAt: int, hasAnalysis: bool)

  /** A stored assessment; `categories` is absent when `results.categories` is missing. */
  datatype Analysis = Analysis(id: string, createdAt: int, categories: Option<Scores>, recommendations: Option<seq<string>>)

  /** A journal entry; the ratings are optional and the texts may be empty. */
  datatype JournalEntry = JournalEntry(
    id: string, patientId: string, entryDate: int,
    moodRating: Option<int>, energyLevel: Option<int>, sleepQuality: Option<int>,
    symptoms: string, insights: string)

  function AnalysisTime(a: Analysis): int { a.createdAt }
  function PatientTime(p: Patient): int { p.createdAt }
  function EntryId(e: JournalEntry): string { e.id }
  function PatientId(p: Patient): string { p.id }

  /** `a?.results?.categories && Object.keys(a.results.categories).length > 0`. */
  predicate HasCategories(a: Analysis) {
    a.categories.Some? && |a.categories.value| > 0
  }

  /** The chart label of a category key (`categoryLabels[key]`), absent for unknown keys. */
  function KnownLabel(key: string): (r: Option<string>)
    ensures r.Some? <==> key in CategoryNames()
  {
    CatalogShape();
    match key
    case "energetico" => Some("Energético")
    case "emocional" => Some("Emocional")
    case "mental" => Some("Mental")
    case "fisico" => Some("Físico")
    case "espiritual" => Some("Espiritual")
    case _ => None
  }

  /** The stored value of `key`, or 0 when it is missing (`categories[key] || 0`). */
  function ValueOr0(cats: Scores, key: string): (v: int)
    ensures key !in Keys(cats) ==> v == 0
    ensures key in Keys(cats) ==> (key, v) in cats
  {
    Lookup(cats, key).GetOr(0)
  }
}
