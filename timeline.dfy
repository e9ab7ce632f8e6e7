/**
 * The patient's journey page: assessments and journal entries merged into
 * one timeline, newest first, with assessments numbered from the oldest.
 */
module Timeline {
  import opened Lists
  import opened Sorting
  import opened Records

  /** A timeline item: an assessment, or a journal entry dated by its entry date. */
  datatype Event = AnalysisEvent(analysis: Analysis) | JournalEvent(entry: JournalEntry)

  /** The item's `created_at`; a journal entry's is replaced by its `entry_date`. */
  function EventTime(e: Event): int {
    match e
    case AnalysisEvent(a) => a.createdAt
    case JournalEvent(j) => j.entryDate
  }

  function AnalysisEvents(analyses: seq<Analysis>): (r: seq<Event>)
    ensures |r| == |analyses|
  {
    seq(|analyses|, i requires 0 <= i < |analyses| => AnalysisEvent(analyses[i]))
  }

  function JournalEvents(entries: seq<JournalEntry>): (r: seq<Event>)
    ensures |r| == |entries|
  {
    seq(|entries|, i requires 0 <= i < |entries| => JournalEvent(entries[i]))
  }

  /** `sortedTimelineEvents`: the tagged assessments, then the tagged entries, sorted newest first. */
  function SortedTimeline(analyses: seq<Analysis>, entries: seq<JournalEntry>): seq<Event> {
    SortDesc(AnalysisEvents(analyses) + JournalEvents(entries), EventTime)
  }

  /** The title number of an assessment: the list length minus its position (`findIndex`) in the list. */
  function AnalysisNumber(all: seq<Analysis>, id: string): int {
    |all| - FindIndex(all, (a: Analysis) => a.id == id)
  }

  /** The text shown for a journal entry: its insights, else its symptoms, else a placeholder. */
  function JournalSummary(j: JournalEntry): (r: string)
    ensures r != ""
  {
    if j.insights != "" then j.insights
    else if j.symptoms != "" then j.symptoms
    else "Registro de observações."
  }

  /** The sidebar's latest journal entries (`slice(0, 3)`). */
  function SidebarEntries(entries: seq<JournalEntry>): (r: seq<JournalEntry>)
    ensures |r| <= 3 && |r| <= |entries| && r == entries[..|r|]
    ensures |entries| >= 3 ==> |r| == 3
    ensures |entries| < 3 ==> r == entries
  {
    Take(entries, 3)
  }

  /** The timeline holds every assessment and every entry exactly once, and nothing else. */
  lemma TimelineContents(analyses: seq<Analysis>, entries: seq<JournalEntry>)
    ensures |SortedTimeline(analyses, entries)| == |analyses| + |entries|
    ensures multiset(SortedTimeline(analyses, entries)) == multiset(AnalysisEvents(analyses)) + multiset(JournalEvents(entries))
  {
  }

  /** The timeline is ordered by date, newest first. */
  lemma TimelineNewestFirst(analyses: seq<Analysis>, entries: seq<JournalEntry>)
    ensures SortedDesc(SortedTimeline(analyses, entries), EventTime)
  {
    SortDescSorted(AnalysisEvents(analyses) + JournalEvents(entries), EventTime);
  }

  /**
   * Items with equal dates keep their input order: that date's assessments,
   * in their order, come before that date's journal entries.
   */
  lemma TimelineTies(analyses: seq<Analysis>, entries: seq<JournalEntry>, k: int)
    ensures WithKey(SortedTimeline(analyses, entries), EventTime, k)
         == WithKey(AnalysisEvents(analyses), EventTime, k) + WithKey(JournalEvents(entries), EventTime, k)
  {
    SortDescStable(AnalysisEvents(analyses) + JournalEvents(entries), EventTime, k);
    WithKeyConcat(AnalysisEvents(analyses), JournalEvents(entries), EventTime, k);
  }

  predicate DistinctIds(all: seq<Analysis>) {
    forall i, j :: 0 <= i < j < |all| ==> all[i].id != all[j].id
  }

  /**
   * With distinct ids, the assessment at position `i` of the newest-first list
   * is number `|all| - i`: the newest is the highest number and the oldest is 1.
   */
  lemma AnalysisNumbering(all: seq<Analysis>, i: nat)
    requires DistinctIds(all) && i < |all|
    ensures AnalysisNumber(all, all[i].id) == |all| - i
    ensures 1 <= AnalysisNumber(all, all[i].id) <= |all|
  {
    var r := FindIndex(all, (a: Analysis) => a.id == all[i].id);
    assert r >= 0;
    assert !(r < i);
  }

  /** An id missing from the list gets the number `|all| + 1`. */
  lemma UnknownAnalysisNumber(all: seq<Analysis>, id: string)
    requires forall i :: 0 <= i < |all| ==> all[i].id != id
    ensures AnalysisNumber(all, id) == |all| + 1
  {
  }
}
