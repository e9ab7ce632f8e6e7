# Restauris core, modelled in Dafny

Restauris is a web application for therapists who follow patients through a six-phase "quantum" therapy protocol. A therapist registers patients, has them answer a questionnaire, and follows their history. The questionnaire has twenty-five questions, each answered 1 to 5, in five categories: energetic, emotional, mental, physical and spiritual. The app turns the answers into category scores from 0 to 100 and a list of advice texts. A therapist also keeps a journal per patient, moves the patient from phase to phase, and curates a library of meditation texts, videos, audio files and documents.

This project models the logic behind those screens and proves what it promises:

- the question catalog, the scoring and the ordered recommendations;
- the questionnaire's submission guard and its tab navigation;
- how the history pages choose what to show, and what they compute: the current and previous assessment, the evolution series, the side-by-side comparison, the summary card, the radar points and the merged timeline;
- the patient and phase tables behind `patientDataUtils`, where a phase change rewrites the patient's current phase row in place and adds no row (`src/lib/patientDataUtils.jsx:164-168`), and the phase manager card;
- the dashboard's list and statistics;
- the patient form;
- the journal page and its entry form;
- the therapist card and its CSV export;
- the resources page's categories, video ids and content dispatch;
- the media manager and the resource form, including the path the delete handler removes, which misses the uploaded file (see ## Findings).

Pure computations are Dafny functions, each with lemmas about its meaning. React components and hooks that update state step by step are classes: a field for each piece of state, and a method for each handler, whose `ensures` gives the complete new state. Storage replies, error values, generated ids and the current time are parameters of those methods. The tables that `patientDataUtils` reads and writes are a class (`PhaseTable.PatientStore`) holding the patient rows and the phase rows.

Modules:

- `Wrappers`, `Strings`, `Lists` and `Sorting` hold the JavaScript library behaviour the rest relies on: `||`, `split`, `join`, `indexOf`, `parseInt`, `filter`, `findIndex`, `new Set`, and the stable `Array.prototype.sort`.
- The other modules each follow one source file.

## Model

| member | source | states |
|---|---|---|
| Catalog.QuestionId | src/lib/analysisUtils.jsx:35-70 | a question id is its category name, `_` and one digit |
| Catalog.CategoryNames | src/lib/analysisUtils.jsx:35-71 | one category name per section, in section order |
| Catalog.NameInjective | src/lib/analysisUtils.jsx:35-71 | different categories have different names |
| Catalog.BelongsUnique | src/lib/analysisUtils.jsx:35-70 | a question id names one category only |
| Catalog.SectionIds | src/lib/analysisUtils.jsx:35-70 | a well-formed section has distinct ids, each prefixed by the section's category |
| Catalog.AllIdsDistinct | src/lib/analysisUtils.jsx:35-71 | no question id occurs twice in the whole questionnaire, and every id comes from some section |
| Catalog.QuestionInAllIds | src/lib/analysisUtils.jsx:35-71 | every question of every section is in the list of all ids |
| Catalog.AllIdsFromQuestions | src/lib/analysisUtils.jsx:35-71 | every id in the list of all ids is the id of some question |
| Catalog.AllIdsLength | src/lib/analysisUtils.jsx:35-71 | five questions per section give five ids per section |
| Catalog.SectionsWellFormed | src/lib/analysisUtils.jsx:35-71 | every section of the catalog is well formed and the category names are distinct |
| Catalog.SectionWellFormed | src/lib/analysisUtils.jsx:35-70 | each catalog section has five questions numbered 1 to 5 with its own category prefix |
| Catalog.CatalogShape | src/lib/analysisUtils.jsx:35-71 | five categories in the order energetico, emocional, mental, fisico, espiritual; five questions each; 25 distinct ids |
| Catalog.OptionValuesParse | src/lib/analysisUtils.jsx:3-33 | the k-th option value of every answer scale parses to k + 1 |
| Catalog.Lookup | src/lib/analysisUtils.jsx:101-136 | `results.<category>` is absent exactly when the key is missing, and otherwise is a stored pair |
| Catalog.LookupDistinct | src/lib/analysisUtils.jsx:88 | with distinct keys, reading a key gives the value stored under it |
| Scoring.Answer | src/lib/analysisUtils.jsx:80 | `answers[q.id] \|\| 0`: 0 for an unanswered question, otherwise the answer |
| Scoring.Percentage | src/lib/analysisUtils.jsx:83-88 | `Math.round(((total - n) / (4n)) * 100)`, stated as the half-open rounding interval |
| Scoring.CategoryScores | src/lib/analysisUtils.jsx:74-89 | one score per catalog section |
| Scoring.CalculateQuantumResults | src/lib/analysisUtils.jsx:73-94 | the loop builds the category scores and the recommendations computed from them and the answers |
| Scoring.PercentageOfFive | src/lib/analysisUtils.jsx:83-88 | for five questions the score is exactly `(total - 5) * 5`, a multiple of 5 |
| Scoring.ScoresAreFiveSteps | src/lib/analysisUtils.jsx:76-89 | the i-th score is keyed by the i-th category and equals `(total - 5) * 5` |
| Scoring.ScoresHaveCatalogKeys | src/lib/analysisUtils.jsx:76-89 | the score object has exactly the five catalog keys, in catalog order |
| Scoring.TotalInRange | src/lib/analysisUtils.jsx:79-81 | answers between 1 and 5 give a total between n and 5n |
| Scoring.TotalConstant | src/lib/analysisUtils.jsx:79-81 | n answers all equal to v total v * n |
| Scoring.TotalEmpty | src/lib/analysisUtils.jsx:79-81 | no answers total 0 |
| Scoring.ScoresInRange | src/lib/analysisUtils.jsx:76-89 | answers between 1 and 5 give a score between 0 and 100 |
| Scoring.UniformAnswers | src/lib/analysisUtils.jsx:76-89 | answering v everywhere gives 25 * (v - 1): 0 for all 1s, 100 for all 5s |
| Scoring.EmptyAnswers | src/lib/analysisUtils.jsx:80-88 | with no answers at all every score is -25 |
| Scoring.ComputedAdviceHasNoFallback | src/lib/analysisUtils.jsx:138-142 | advice computed from real scores never carries the fallback message |
| Scoring.RuleQuestions | src/lib/analysisUtils.jsx:125-130 | the sleep and nutrition rules read the third and fifth physical questions |
| Scoring.TopAnswers | src/lib/analysisUtils.jsx:96-145 | answering 5 everywhere yields the congratulations message alone |
| Recommendations.CategoryAdvice | src/lib/analysisUtils.jsx:101-123 | at most one message per category, the low or the mid one for that category |
| Recommendations.AnswerAdvice | src/lib/analysisUtils.jsx:125-130 | at most one message per answer rule, and it is that rule's message |
| Recommendations.PushCategory | src/lib/analysisUtils.jsx:101-105 | one `if / else if` block appends exactly that category's advice |
| Recommendations.PushAnswer | src/lib/analysisUtils.jsx:125-127 | one answer test appends exactly that rule's advice |
| Recommendations.GenerateRecommendations | src/lib/analysisUtils.jsx:96-145 | the pushes in order give the texts of the specified advice list |
| Recommendations.Extend | src/lib/analysisUtils.jsx:96-136 | appending a block of higher rank keeps the list ordered |
| Recommendations.AdviceOrder | src/lib/analysisUtils.jsx:96-145 | the messages come in the fixed order of the blocks, each at most once |
| Recommendations.ClosingInOrder | src/lib/analysisUtils.jsx:138-142 | the closing message comes after every other |
| Recommendations.PartsInOrder | src/lib/analysisUtils.jsx:101-136 | the seven blocks in source order give a strictly ranked list |
| Recommendations.BodyMembers | src/lib/analysisUtils.jsx:101-136 | a message is in the body exactly when one of the seven blocks emitted it |
| Recommendations.AdviseMembers | src/lib/analysisUtils.jsx:138-142 | congratulations exactly when every score is at least 60; the fallback exactly when not and nothing else was said |
| Recommendations.OwnPart | src/lib/analysisUtils.jsx:101-105 | a category's low message iff its score is below 40, its mid message iff between 40 and 59 |
| Recommendations.OtherParts | src/lib/analysisUtils.jsx:101-136 | no other block emits a category's messages |
| Recommendations.CategoryMessages | src/lib/analysisUtils.jsx:98-136 | in the full list: low iff score below 40, mid iff 40 <= score < 60, for each category |
| Recommendations.AnswerMessages | src/lib/analysisUtils.jsx:125-130 | the sleep (nutrition) message iff fisico_3 (fisico_5) is answered with at most 2 |
| Recommendations.ClosingMessages | src/lib/analysisUtils.jsx:138-142 | congratulations iff all scores at least 60, and then last; the list is never empty |
| Recommendations.FallbackUnreachable | src/lib/analysisUtils.jsx:138-142 | with the five catalog keys the fallback never appears: some score below 60 always emits a category message |
| Recommendations.OnlyCongratulations | src/lib/analysisUtils.jsx:96-145 | all scores at least 60 and no low sleep or food answer give the congratulations message alone |
| Questionnaire.Parsed | src/lib/analysisUtils.jsx:80 | the answers scoring reads: exactly the non-empty ones |
| Questionnaire.QuestionnaireForm.constructor | src/hooks/useQuantumAnalysisLogic.jsx:12-15 | no answers, not submitting |
| Questionnaire.QuestionnaireForm.HandleAnswerChange | src/hooks/useQuantumAnalysisLogic.jsx:38-40 | records one answer and keeps every other |
| Questionnaire.QuestionnaireForm.HandleSubmit | src/hooks/useQuantumAnalysisLogic.jsx:46-104 | an incomplete form sends nothing; a complete one sends answers, scores and advice, ends by the store's reply and clears the submitting flag |
| Questionnaire.CatalogIdSet | src/hooks/useQuantumAnalysisLogic.jsx:42 | the catalog has 25 distinct question ids |
| Questionnaire.CompleteIffAllAnswered | src/hooks/useQuantumAnalysisLogic.jsx:42-44 | a form holding only catalog ids is complete iff every catalog question has a non-empty answer |
| Questionnaire.PayloadHasCategories | src/hooks/useQuantumAnalysisLogic.jsx:61-71 | the payload's scores carry the catalog keys, so the critical-error branch is unreachable |
| Questionnaire.ParsedOption | src/hooks/useQuantumAnalysisLogic.jsx:38-40 | an answer that is an option value is parsed to a number from 1 to 5 |
| Questionnaire.SubmittedScoresInRange | src/hooks/useQuantumAnalysisLogic.jsx:57-78 | a complete form of option values sends scores between 0 and 100 |
| Questionnaire.SaveOutcomes | src/hooks/useQuantumAnalysisLogic.jsx:73-93 | submitted iff no error and a row came back; every failure has a non-empty description |
| Tabs.QuestionsOf | src/components/quantumAnalysis/QuantumAnalysisTabs.jsx:24-25 | a known tab yields its section's questions, an unknown one nothing |
| Tabs.TabIndex | src/components/quantumAnalysis/QuantumAnalysisTabs.jsx:51 | `tabKeys.indexOf(tab)`: -1 iff not a key, else the first position holding it |
| Tabs.TabOrder | src/components/quantumAnalysis/QuantumAnalysisTabs.jsx:21 | the tab keys are the five categories in catalog order, without repetition |
| Tabs.TabIndexOfKey | src/components/quantumAnalysis/QuantumAnalysisTabs.jsx:21 | the i-th key is found at position i |
| Tabs.NextSteps | src/components/quantumAnalysis/QuantumAnalysisTabs.jsx:50-63 | next moves one tab right, and does nothing exactly on the last tab |
| Tabs.PrevSteps | src/components/quantumAnalysis/QuantumAnalysisTabs.jsx:56-62 | previous moves one tab left, and does nothing exactly on the first tab |
| Tabs.NextPrevRoundTrip | src/components/quantumAnalysis/QuantumAnalysisTabs.jsx:50-61 | next then previous, or previous then next, return to the same tab |
| Tabs.UnknownTab | src/components/quantumAnalysis/QuantumAnalysisTabs.jsx:23-63 | an unknown tab is never complete, first or last; next goes to the first tab, previous nowhere |
| Tabs.TabCompleteIff | src/components/quantumAnalysis/QuantumAnalysisTabs.jsx:23-27 | a tab is complete iff every one of its questions has a non-empty answer |
| Tabs.CompleteIffAllTabs | src/components/quantumAnalysis/QuantumAnalysisTabs.jsx:23-27 | a form is complete iff every tab is complete |
| Records.KnownLabel | src/components/results/EvolutionChart.jsx:15-21 | a key has a chart label exactly when it is one of the five catalog categories |
| Records.ValueOr0 | src/components/results/EvolutionChart.jsx:92 | `categories[key] \|\| 0`: 0 for a missing key, otherwise the stored value |
| ResultsPage.First | src/hooks/useResultsPageLogic.jsx:35 | `sorted[0] \|\| null`: present iff the list is non-empty, and then its first element |
| ResultsPage.Second | src/hooks/useResultsPageLogic.jsx:36 | `sorted[1] \|\| null`: present iff there are two elements, and then the second |
| ResultsPage.ResultsPageLogic.constructor | src/hooks/useResultsPageLogic.jsx:7-15 | the initial state: loading, no patient, no lists, phase 1 without start date or id |
| ResultsPage.ResultsPageLogic.FetchData | src/hooks/useResultsPageLogic.jsx:17-64 | no id: nothing read; patient failure: its message or the default; assessment failure: stops before phase and journal; success: newest-first list, phase fields when given, journal when given; loading always ends |
| ResultsPage.ResultsPageLogic.HandlePhaseUpdate | src/hooks/useResultsPageLogic.jsx:70-74 | sets the three phase fields and nothing else |
| ResultsPage.CurrentIsNewest | src/hooks/useResultsPageLogic.jsx:33-35 | the current assessment is a newest one, the first of the newest in the fetched order |
| ResultsPage.PreviousNotNewer | src/hooks/useResultsPageLogic.jsx:33-36 | the previous assessment is no newer than the current one, and both come from the fetched list |
| ResultsPage.ViewOfLoadedState | src/pages/ResultsPage.jsx:31-77 | after loading: error view without patient, no-analysis view without assessments, results otherwise; the corrupt and reload views are unreachable |
| ResultsView.HistoryIffSomeValid | src/components/results/ResultsView.jsx:30 | the history qualifies for evolution iff some assessment has scores |
| ResultsView.UnavailableIff | src/components/results/ResultsView.jsx:126-147 | the "evolution unavailable" card iff the history is non-empty and no assessment has scores |
| ResultsView.LoadedStatePanels | src/components/results/ResultsView.jsx:29-127 | the recent-problem card never shows for a loaded page; a valid current assessment means the evolution chart is offered |
| Evolution.ValuesFor | src/components/results/EvolutionChart.jsx:91-93 | one value per label key |
| Evolution.ValidHaveCategories | src/components/results/EvolutionChart.jsx:61-63 | every assessment kept for the chart has scores |
| Evolution.FillDataPoint | src/components/results/EvolutionChart.jsx:87-94 | the point built for an assessment is its number, date and values |
| Evolution.FillValues | src/components/results/EvolutionChart.jsx:91-93 | the `forEach` over the label keys builds the specified values |
| Evolution.BuildEvolution | src/components/results/EvolutionChart.jsx:37-95 | the component's branches give the specified view of the history |
| Evolution.BuildPoints | src/components/results/EvolutionChart.jsx:87-95 | the `map` over the valid assessments builds the specified chart data |
| Evolution.EvolutionStates | src/components/results/EvolutionChart.jsx:38-65 | "need two" iff fewer than two assessments; "incomplete" iff two or more but fewer than two with scores; the chart otherwise |
| Evolution.ChartDataPoints | src/components/results/EvolutionChart.jsx:87-95 | one point per valid assessment, numbered from 1, with its date and the five label keys |
| Evolution.ValuesKeys | src/components/results/EvolutionChart.jsx:91-93 | the values carry exactly the label keys, in order |
| Evolution.ChartPoints | src/components/results/EvolutionChart.jsx:61-95 | as many points as scored assessments, numbered from 1, with the catalog keys, oldest first |
| Evolution.PointValueOf | src/components/results/EvolutionChart.jsx:92 | each value is the stored score of that key, or 0 when it is missing |
| Comparison.BarRows | src/components/results/ComparativeBarChart.jsx:88-92 | one bar per label key |
| Comparison.ComparisonGuards | src/components/results/ComparativeBarChart.jsx:50-86 | each notice shows exactly under its guard, in the source's order, and the bars otherwise |
| Comparison.BarsContent | src/components/results/ComparativeBarChart.jsx:88-92 | the i-th bar has the i-th label and the stored current and previous values, 0 when missing |
| Comparison.EmptyCurrentPasses | src/components/results/ComparativeBarChart.jsx:50-92 | an empty current score map passes the first guard and compares as all zeros |
| Summary.RoundDiv | src/components/results/AnalysisInfoCard.jsx:25 | `Math.round(num / den)`, stated as the half-open rounding interval |
| Summary.SumBounds | src/components/results/AnalysisInfoCard.jsx:25 | scores between lo and hi sum to between lo·n and hi·n |
| Summary.RoundBounds | src/components/results/AnalysisInfoCard.jsx:25 | rounding a quotient between lo and hi stays between them |
| Summary.AverageBounds | src/components/results/AnalysisInfoCard.jsx:24-26 | the average lies between the smallest and largest bound of the scores |
| Summary.AverageOfEqual | src/components/results/AnalysisInfoCard.jsx:24-26 | equal scores average to that score |
| Summary.NoCategories | src/components/results/AnalysisInfoCard.jsx:21-36 | without categories: no entries, average 0, both dimensions "N/A" |
| Summary.DimensionsPresent | src/components/results/AnalysisInfoCard.jsx:30-36 | a strongest and a weakest dimension exist iff there are categories |
| Summary.StrongestIsMax | src/components/results/AnalysisInfoCard.jsx:28-32 | the strongest dimension has the largest score, the first such in key order |
| Summary.WeakestIsMin | src/components/results/AnalysisInfoCard.jsx:28-36 | the weakest dimension has the smallest score, the last such in key order |
| Summary.SortIsPermutation | src/components/results/AnalysisInfoCard.jsx:28 | the sorted copy is a permutation of the entries, largest score first |
| Radar.RadarAvailable | src/components/results/QuantumCharts.jsx:28-30 | the unavailable card iff the assessment or its score map is missing or empty |
| Radar.RadarPoints | src/components/results/QuantumCharts.jsx:54-58 | one point per stored key, in key order, with its score, full mark 100, and the label or the capitalised key |
| Timeline.AnalysisEvents | src/pages/PatientEvolutionPage.jsx:48 | one analysis item per assessment |
| Timeline.JournalEvents | src/pages/PatientEvolutionPage.jsx:49 | one journal item per entry |
| Timeline.JournalSummary | src/pages/PatientEvolutionPage.jsx:105 | `insights \|\| symptoms \|\| placeholder` is never empty |
| Timeline.SidebarEntries | src/pages/PatientEvolutionPage.jsx:124 | `slice(0, 3)`: the first three entries, or all of them when fewer |
| Timeline.TimelineContents | src/pages/PatientEvolutionPage.jsx:47-50 | the timeline holds every assessment and every entry exactly once, and nothing else |
| Timeline.TimelineNewestFirst | src/pages/PatientEvolutionPage.jsx:50 | the timeline is sorted newest first |
| Timeline.TimelineTies | src/pages/PatientEvolutionPage.jsx:47-50 | items with equal dates keep their order: assessments before entries, each in list order |
| Timeline.AnalysisNumbering | src/pages/PatientEvolutionPage.jsx:93 | with distinct ids the i-th assessment of the newest-first list is number n - i, between 1 and n |
| Timeline.UnknownAnalysisNumber | src/pages/PatientEvolutionPage.jsx:93 | an id not in the list gives n + 1 (`findIndex` returning -1) |
| PhaseTable.RowIndex | src/lib/patientDataUtils.jsx:167 | `.eq('id', id)`: -1 iff no row has the id, else the first row that has it |
| PhaseTable.CurrentPhase | src/lib/patientDataUtils.jsx:135-148 | `getPatientCurrentPhase`: none iff the patient has no row; otherwise one of the patient's rows with the latest creation date |
| PhaseTable.Insert | src/lib/patientDataUtils.jsx:4-13 | an insert fails on a storage failure or a taken id, leaving the table; otherwise it appends the row and returns it |
| PhaseTable.SetPhase | src/lib/patientDataUtils.jsx:164-168 | a rewrite keeps the number of rows |
| PhaseTable.SetPhaseKeeps | src/lib/patientDataUtils.jsx:166 | a rewrite changes only phase number and start date: ids, patients and creation dates stay |
| PhaseTable.UpdateWithIdInPlace | src/lib/patientDataUtils.jsx:151-174 | with a known id, exactly that row is rewritten in place and returned; no row is added |
| PhaseTable.UpdateWithUnknownId | src/lib/patientDataUtils.jsx:164-174 | an id no row has changes nothing and returns the no-row error |
| PhaseTable.UpdateReusesCurrent | src/lib/patientDataUtils.jsx:153-174 | without an id, the patient's current row is the one rewritten |
| PhaseTable.UpdateCreatesRow | src/lib/patientDataUtils.jsx:157-174 | without an id or a row, a phase-1 row is created now and at once rewritten to the new number |
| PhaseTable.UpdateAppended | src/lib/patientDataUtils.jsx:160-169 | rewriting the row just appended changes that row only |
| PhaseTable.UpdateCreateFails | src/lib/patientDataUtils.jsx:158-159 | a failed lazy creation is returned as it is and leaves the table unchanged |
| PhaseTable.SetPhaseCurrent | src/lib/patientDataUtils.jsx:135-168 | after a rewrite the patient's current row is the same row, rewritten |
| PhaseTable.ChangeBecomesCurrent | src/lib/patientDataUtils.jsx:151-175 | a successful change without an id leaves the returned row as the patient's current phase |
| PhaseTable.CurrentIsTheOnlyRow | src/lib/patientDataUtils.jsx:135-148 | the first row of a patient is the patient's current phase |
| PhaseTable.UpdateKeepsIdsDistinct | src/lib/patientDataUtils.jsx:151-175 | every phase change keeps the row ids distinct |
| PhaseTable.InsertKeepsIdsDistinct | src/lib/patientDataUtils.jsx:4-8 | appending a row with a fresh id keeps the ids distinct |
| PhaseTable.LastRowFor | src/lib/patientDataUtils.jsx:44 | the map entry of a patient: none iff no row is the patient's, else the patient's last row |
| PhaseTable.AsList | src/lib/patientDataUtils.jsx:48 | `[phasesMap.get(id)].filter(Boolean)`: one row iff there is one, else none |
| PhaseTable.LastRowOfQuery | src/lib/patientDataUtils.jsx:35-44 | restricting the rows to listed patients keeps each listed patient's last row |
| PhaseTable.PatientStore.constructor | src/lib/patientDataUtils.jsx:1 | an empty store |
| PhaseTable.PatientStore.CreateInitialPatientPhase | src/lib/patientDataUtils.jsx:3-14 | the store's new state and the reply are those of inserting phase 1 started now |
| PhaseTable.PatientStore.RewritePhase | src/lib/patientDataUtils.jsx:164-168 | the update by id rewrites the number and start date of exactly the rows with that id, in place |
| PhaseTable.PatientStore.UpdatePatientCurrentPhase | src/lib/patientDataUtils.jsx:151-175 | the lazy-create branches and the in-place rewrite give the specified table and reply |
| PhaseTable.PatientStore.SavePatient | src/lib/patientDataUtils.jsx:90-107 | a failed or duplicate insert changes nothing; otherwise the patient is stored and its phase-1 row created, a failure of which is not reported |
| PhaseTable.PatientStore.GetAllPatients | src/lib/patientDataUtils.jsx:16-52 | no therapist: the error; a failed read: nothing; otherwise the therapist's patients newest first, each with its last phase row, none when the phase read fails |
| PhaseTable.BuildPhaseMap | src/lib/patientDataUtils.jsx:44 | the map built row by row holds, for each patient, the last row of that patient |
| PhaseTable.JoinedPhaseIsLastRow | src/lib/patientDataUtils.jsx:34-49 | the phase attached to a listed patient is that patient's last row in the table |
| PhaseManager.SelectablePhases | src/components/results/PatientPhaseManager.jsx:10-17 | six options, valued 1 to 6 in order, each labelled with that phase's name |
| PhaseManager.OptionValuesParse | src/components/results/PatientPhaseManager.jsx:28-30 | each option value written as text parses back to its number |
| PhaseManager.InitialSelection | src/components/results/PatientPhaseManager.jsx:20-25 | `initialPhaseNumber \|\| 1`: absent or zero selects phase 1, otherwise the current phase |
| PhaseManager.SubmitGuard | src/components/results/PatientPhaseManager.jsx:33-48 | the store is asked iff there is a patient id and the selected phase is not the current one |
| PhaseManager.EnabledPassesGuards | src/components/results/PatientPhaseManager.jsx:33-112 | an enabled button passes both guards; a stopping guard disables the button |
| PhaseManager.FailureMessage | src/components/results/PatientPhaseManager.jsx:62 | never empty; the store's message when it has one |
| PhaseManager.Outcome | src/components/results/PatientPhaseManager.jsx:51-63 | updated iff a row came back without error, telling the parent the selected phase, the start date and the id; failed otherwise |
| PhaseManager.PhaseManagerCard.constructor | src/components/results/PatientPhaseManager.jsx:20-21 | the initial selection, not loading |
| PhaseManager.PhaseManagerCard.SyncSelection | src/components/results/PatientPhaseManager.jsx:24-26 | the selection follows a new current phase |
| PhaseManager.PhaseManagerCard.HandlePhaseChange | src/components/results/PatientPhaseManager.jsx:28-30 | the selection becomes the parsed value |
| PhaseManager.PhaseManagerCard.HandleSubmitPhaseUpdate | src/components/results/PatientPhaseManager.jsx:32-74 | a stopping guard touches neither store nor loading flag; otherwise the store makes the specified change, the outcome follows its reply and loading ends |
| PhaseManager.ConfirmedChangeIsCurrent | src/components/results/PatientPhaseManager.jsx:51-60 | a confirmed change without a known row id makes the selected phase the patient's current phase |
| Utils.CalculateAge | src/lib/utils.js:31-42 | no date or an invalid one gives null; otherwise the number of birthdays that have come by today |
| Utils.AnniversaryMonotone | src/lib/utils.js:36-40 | a later birthday that has come implies every earlier one has |
| Utils.AgeUnique | src/lib/utils.js:31-42 | the age is determined by the birth date and the day |
| Utils.PhaseName | src/lib/utils.js:81-92 | a known phase's name, otherwise "Fase n" |
| Utils.PhaseDescription | src/lib/utils.js:81-96 | a known phase's description, otherwise the placeholder |
| Utils.DescriptionKnownIff | src/lib/utils.js:94-96 | a description other than the placeholder iff the phase is 1 to 6 |
| Utils.Value | src/lib/utils.js:59 | `row[fieldName]`: a present value is one stored under that key |
| Utils.Escape | src/lib/utils.js:52 | doubling quotes never shortens a value |
| Utils.EscapeRoundTrip | src/lib/utils.js:52-59 | reading an escaped field back gives the value |
| Utils.EscapePairsQuotes | src/lib/utils.js:52 | every quote of an escaped value is part of a doubled pair |
| Utils.Fields | src/lib/utils.js:59 | one quoted field per header key, in header order |
| Utils.CsvLines | src/lib/utils.js:59-60 | the unquoted header line, then one line per row |
| Utils.CsvHeader | src/lib/utils.js:55-57 | the header is each key once, in order of first appearance |
| Utils.AddKeys | src/lib/utils.js:56 | adding one row's keys to the set extends the deduplicated key list |
| Utils.DedupSnoc | src/lib/utils.js:56 | adding a key appends it unless already present |
| Utils.ExportToCsv | src/lib/utils.js:44-61 | nothing for no data; otherwise the header and rows joined with CRLF |
| Utils.AllKeysOfRow | src/lib/utils.js:55-56 | every key of every row is collected |
| Utils.HeaderCoversRows | src/lib/utils.js:55-57 | the header holds every key of every row, each once |
| Dashboard.CalculateStats | src/hooks/useDashboardLogic.jsx:54-63 | the total, the number with an assessment and the number created in the last seven days; neither count exceeds the total |
| Dashboard.CountsAdd | src/hooks/useDashboardLogic.jsx:54-63 | the counts of two lists add up |
| Dashboard.StatsAfterRemoval | src/hooks/useDashboardLogic.jsx:78-79 | removing a listed patient lowers the total by one; removing an unknown id changes no count |
| Dashboard.DashboardLogic.constructor | src/hooks/useDashboardLogic.jsx:9-16 | no patients, loading, no error, all counts 0 |
| Dashboard.DashboardLogic.FetchPatients | src/hooks/useDashboardLogic.jsx:18-48 | no user: the not-authenticated error and nothing else changes; a failed read: its message or the default; otherwise the list newest first with its counts; loading ends |
| Dashboard.DashboardLogic.HandleDeletePatient | src/hooks/useDashboardLogic.jsx:65-89 | removed iff the store reports no error; then the patient leaves the list and the counts are recomputed, otherwise nothing changes and the message is the store's or the default |
| PatientForm.InitialForm | src/hooks/usePatientFormLogic.jsx:15-25 | the nine fields, all empty |
| PatientForm.PatientFormLogic.constructor | src/hooks/usePatientFormLogic.jsx:15-29 | the initial form, not saving, no therapists or patients |
| PatientForm.PatientFormLogic.HandleFieldChange | src/hooks/usePatientFormLogic.jsx:83-90 | one field changes and every other keeps its value |
| PatientForm.PatientFormLogic.HandleDateChange | src/hooks/usePatientFormLogic.jsx:92-95 | the birth date becomes the formatted date, or empty when cleared |
| PatientForm.PatientFormLogic.LoadLists | src/hooks/usePatientFormLogic.jsx:31-49 | with no logged-in user nothing changes; otherwise the lists that came back replace the old ones, and in create mode a logged-in therapist found in the list is preselected, else the form is kept |
| PatientForm.PatientFormLogic.HandleSubmit | src/hooks/usePatientFormLogic.jsx:97-181 | a duplicate email, then an unparsable birth date, then, in create mode only, a missing or empty user id stop without a write, in that order, each exactly under its condition; in every other case a write is issued: create for the logged-in therapist, edit for the routed patient, with the converted date; the outcome is the store's reply; saving ends |
| PatientForm.EmptyEmailsClash | src/hooks/usePatientFormLogic.jsx:101-103 | an empty email clashes with any other patient whose email is empty |
| PatientForm.CreateChecksEveryone | src/hooks/usePatientFormLogic.jsx:101-103 | without a route id every patient counts for the duplicate test |
| Journal.JournalPage.constructor | src/pages/PatientJournalPage.jsx:20-25 | no entries, form hidden, nothing edited or deleted |
| Journal.JournalPage.HandleSaveSuccess | src/pages/PatientJournalPage.jsx:61-71 | an edit replaces the entry with the same id; a new entry goes first; the form closes |
| Journal.JournalPage.HandleEditEntry | src/pages/PatientJournalPage.jsx:73-77 | the entry is being edited and the form shows |
| Journal.JournalPage.HandleDeleteEntry | src/pages/PatientJournalPage.jsx:79-102 | a successful delete removes every entry with the id, a failed one changes nothing; the deleting mark clears |
| Journal.JournalPage.ToggleFormVisibility | src/pages/PatientJournalPage.jsx:104-109 | the form flips; closing it drops the edited entry |
| Journal.JournalPage.HandleCancelEdit | src/pages/PatientJournalPage.jsx:111-114 | the form closes and nothing is edited |
| Journal.EditKeepsOthers | src/pages/PatientJournalPage.jsx:63-65 | an edit keeps the length and every entry with another id |
| Journal.DeleteRemovesOne | src/pages/PatientJournalPage.jsx:84 | with distinct ids, deleting a listed entry removes exactly one, and that id is gone |
| Journal.JournalEntryForm.constructor | src/components/journal/JournalEntryForm.jsx:39-45 | a blank form dated today, not submitting |
| Journal.JournalEntryForm.SyncEntry | src/components/journal/JournalEntryForm.jsx:48-64 | the form shows the edited entry, or is blank and dated today |
| Journal.JournalEntryForm.EntryDataFor | src/components/journal/JournalEntryForm.jsx:82-90 | the record carries the edited entry's patient, else the prop's, and the form's date, ratings and texts |
| Journal.JournalEntryForm.HandleSubmit | src/components/journal/JournalEntryForm.jsx:66-130 | no patient, then no date, stop without a write; an entry with an id is updated, any other saved; a saved new entry blanks the form; otherwise the fields stay; submitting ends |
| Journal.FailureMessage | src/components/journal/JournalEntryForm.jsx:118-124 | never empty; the store's message when it has one |
| Therapists.FormOf | src/components/dashboard/TherapistManagement.jsx:88-103 | editing a therapist fills the form with its name and its contact fields, a missing one as empty |
| Therapists.FetchedList | src/components/dashboard/TherapistManagement.jsx:51-77 | a failed read gives the empty list; otherwise the list is a permutation of the reply |
| Therapists.FetchedListSorted | src/components/dashboard/TherapistManagement.jsx:64 | with distinct names the fetched list is in strictly increasing name order |
| Therapists.SubmitMessage | src/components/dashboard/TherapistManagement.jsx:112-116 | the service's message when it has one, else the success or failure text of the mode |
| Therapists.TherapistManagement.constructor | src/components/dashboard/TherapistManagement.jsx:33-49 | no therapists, form closed and blank, add mode, fetching |
| Therapists.TherapistManagement.FetchTherapistsData | src/components/dashboard/TherapistManagement.jsx:51-77 | the list becomes the fetched list and fetching ends |
| Therapists.TherapistManagement.HandleInputChange | src/components/dashboard/TherapistManagement.jsx:83-86 | one field changes, the others stay |
| Therapists.TherapistManagement.HandleOpenForm | src/components/dashboard/TherapistManagement.jsx:88-103 | the form opens in the mode; edit with a therapist shows it, anything else a blank form and no current therapist |
| Therapists.TherapistManagement.HandleSubmitForm | src/components/dashboard/TherapistManagement.jsx:105-137 | a blank name asks nothing and changes nothing; otherwise update iff editing an existing therapist, else save; on success the form closes and the list is refetched; submitting ends |
| Therapists.TherapistManagement.HandleDeleteTherapist | src/components/dashboard/TherapistManagement.jsx:139-155 | a successful delete removes the therapist from the list, a failed one changes nothing |
| Therapists.ExportRow | src/components/dashboard/TherapistManagement.jsx:160-168 | every exported row has the seven columns, in order |
| Therapists.ExportRows | src/components/dashboard/TherapistManagement.jsx:160-168 | one row per therapist, in list order |
| Therapists.HandleExportTherapists | src/components/dashboard/TherapistManagement.jsx:157-173 | nothing for an empty list; otherwise the CSV text has the seven columns as header and one line per therapist |
| Therapists.ColumnsDistinct | src/components/dashboard/TherapistManagement.jsx:160-168 | the export columns are distinct |
| Therapists.SameKeysHeader | src/lib/utils.js:55-57 | rows that all have the same distinct keys give exactly those keys as header |
| Therapists.DedupDistinct | src/lib/utils.js:55-57 | a list without repetitions is its own set order |
| Therapists.DedupAbsorbs | src/lib/utils.js:56 | keys that are all seen already add nothing to the header |
| Resources.OrElse | src/pages/ResourcesPage.jsx:166 | `value \|\| fallback` on strings: the value when it is present and non-empty, else the fallback |
| Resources.CategoryList | src/pages/ResourcesPage.jsx:166 | `item.category \|\| "Outros"` for each resource, in order |
| Resources.OrderIndex | src/pages/ResourcesPage.jsx:167-177 | `order.indexOf(c)`: -1 iff not listed, else its position |
| Resources.Categories | src/pages/ResourcesPage.jsx:166-185 | the categories shown are distinct and are exactly the categories of the resources |
| Resources.DistinctPermutation | src/pages/ResourcesPage.jsx:166 | sorting a duplicate-free list keeps it duplicate-free |
| Resources.DistinctCount | src/pages/ResourcesPage.jsx:166 | a value occurs at most once in a duplicate-free list |
| Resources.CategoryOrderStrict | src/pages/ResourcesPage.jsx:176-184 | the comparator is a strict total order on distinct categories |
| Resources.CategoriesSorted | src/pages/ResourcesPage.jsx:166-185 | the categories are strictly sorted by the comparator |
| Resources.CategoryPlacement | src/pages/ResourcesPage.jsx:176-184 | listed categories come first in list order, unlisted ones after them in text order |
| Resources.CutAfter | src/pages/ResourcesPage.jsx:67-82 | `split(mark)[1].split(stop)[0]` is the longest prefix after the first mark holding neither the stop nor the mark |
| Resources.YouTubeIdShape | src/pages/ResourcesPage.jsx:67-68 | the YouTube id is what follows the first `v=` up to the first `&` or next `v=` |
| Resources.VimeoIdShape | src/pages/ResourcesPage.jsx:81-82 | the Vimeo id is what follows the first `vimeo.com/` up to the first `?` or next mark |
| Resources.Paragraphs | src/pages/ResourcesPage.jsx:112-115 | one line per `\n`-separated piece, a break for a blank piece |
| Resources.VideoDisplay | src/pages/ResourcesPage.jsx:65-97 | a YouTube URL embeds its id, else a Vimeo URL embeds its id, else an external link |
| Resources.ContentDisplay | src/pages/ResourcesPage.jsx:39-127 | no resource: the unavailable notice; any type other than a meditation script goes to the generic display |
| Resources.MeditationDispatch | src/pages/ResourcesPage.jsx:44-59 | a meditation script goes to its phase component iff its phase is 1 to 4; otherwise the text, or "coming soon" iff there is no content |
| Resources.ParagraphsCoverText | src/pages/ResourcesPage.jsx:112-116 | the lines are the text's pieces: joined they give the text back, a break iff the piece is blank, no paragraph holds a line break |
| Storage.UploadKey | src/components/mediaManager/ResourceForm.jsx:120 | an upload's key is the bucket folder `resource_uploads/` followed by the file name |
| Storage.PublicUrlMarked | src/pages/MediaManagerPage.jsx:100 | every public URL of the bucket passes the page's test for an uploaded file |
| Storage.PublicUrlParts | src/components/mediaManager/ResourceForm.jsx:132-133 | the first `resource_uploads/` of a public URL is the bucket segment that ends its prefix |
| Storage.StoragePathAsWritten | src/pages/MediaManagerPage.jsx:101 | `substring(indexOf('resource_uploads/'))`: a suffix of the URL that begins with the bucket segment |
| Storage.AsWrittenMissesUpload | src/pages/MediaManagerPage.jsx:100-102 | the path cut from the first `resource_uploads/` is the bucket segment followed by the key, never the uploaded key |
| Storage.StoragePath | src/pages/MediaManagerPage.jsx:100-102 | the storage path is a proper suffix of the public URL |
| Storage.StoragePathRoundTrip | src/pages/MediaManagerPage.jsx:100-102 | the storage path of a public URL is the key it was made from |
| Storage.UploadFoundAgain | src/components/mediaManager/ResourceForm.jsx:118-133 | the file an upload stored is the file its public URL leads back to |
| Media.FilteredResources | src/pages/MediaManagerPage.jsx:124-130 | a resource is shown iff it is in the list and its title or description holds the search term, ignoring case, and it has the chosen category and type when these are set |
| Media.NoFilterKeepsAll | src/pages/MediaManagerPage.jsx:124-130 | with no search term and no filters every resource is shown, in order |
| Media.FilterKeepsOrder | src/pages/MediaManagerPage.jsx:124 | filtering keeps the list order |
| Media.CategoryNames | src/pages/MediaManagerPage.jsx:132 | the category choices are exactly the non-empty categories of the resources |
| Media.TypeNames | src/pages/MediaManagerPage.jsx:133 | the type choices are exactly the non-empty types of the resources |
| Media.UniqueSorted | src/pages/MediaManagerPage.jsx:132-133 | `[...new Set(names)].sort()`: the same names, each once, in strictly increasing order |
| Media.TextOrderStrict | src/pages/MediaManagerPage.jsx:132-133 | the default sort order is a strict total order on distinct names |
| Media.FindById | src/pages/MediaManagerPage.jsx:99 | `find`: nothing iff no resource has the id, else the first one that has it |
| Media.StoredFile | src/pages/MediaManagerPage.jsx:99-101 | a file is removed iff the resource exists and its media URL is set and is a public URL of the bucket; the path removed is the URL from its first `resource_uploads/` on, so it starts with that segment |
| Media.StoredFileMissesUpload | src/pages/MediaManagerPage.jsx:99-102 | deleting an uploaded resource asks storage to remove the bucket segment followed by the upload key, never the upload key itself |
| Media.MediaManager.constructor | src/pages/MediaManagerPage.jsx:52-60 | no resources, loading, no error, form closed, nothing being edited, no search or filters |
| Media.MediaManager.FetchResources | src/pages/MediaManagerPage.jsx:62-80 | a reply replaces the list and clears the error; a failure keeps the list and sets the load error; loading ends |
| Media.MediaManager.HandleAddNewResource | src/pages/MediaManagerPage.jsx:86-89 | the form opens with nothing being edited |
| Media.MediaManager.HandleEditResource | src/pages/MediaManagerPage.jsx:91-94 | the form opens on the resource |
| Media.MediaManager.HandleDeleteResource | src/pages/MediaManagerPage.jsx:96-118 | the path the page cuts from the media URL is removed first, and its failure only warns; a failed row delete reports its message and changes nothing else; a successful one reports the title and reads the list again |
| Media.MediaManager.HandleSaveSuccess | src/pages/MediaManagerPage.jsx:120-122 | a save reads the list again |
| ResourceForm.PhaseText | src/components/mediaManager/ResourceForm.jsx:79 | `phase_association?.toString() \|\| ''`: empty iff there is no phase |
| ResourceForm.FormFor | src/components/mediaManager/ResourceForm.jsx:52-83 | no resource gives the initial form; a resource fills each field, with the form's default for a missing one |
| ResourceForm.PhaseValue | src/components/mediaManager/ResourceForm.jsx:139 | an empty phase is saved as `null`, any other as its parsed number |
| ResourceForm.PhaseRoundTrip | src/components/mediaManager/ResourceForm.jsx:79-139 | a phase shown in the form is saved back unchanged |
| ResourceForm.SelectorPhases | src/components/mediaManager/ResourceForm.jsx:41-49 | the first option saves no phase, option i saves phase i |
| ResourceForm.UploadTypes | src/components/mediaManager/ResourceForm.jsx:105 | of the nine types exactly the three upload types are uploads |
| ResourceForm.DataFor | src/components/mediaManager/ResourceForm.jsx:136-140 | the saved row holds the form's fields with the media path and the parsed phase |
| ResourceForm.SavedPhaseUnchanged | src/components/mediaManager/ResourceForm.jsx:69-140 | editing a resource and saving without a change keeps its phase |
| ResourceForm.UploadExtension | src/components/mediaManager/ResourceForm.jsx:118-119 | the stored name is the stem, a dot and the file's extension: the text after its last dot, the whole name when it has none |
| ResourceForm.ResourceFormState.constructor | src/components/mediaManager/ResourceForm.jsx:63-66 | the initial form, not submitting, no file |
| ResourceForm.ResourceFormState.Sync | src/components/mediaManager/ResourceForm.jsx:69-85 | the form shows the resource, or the initial form, and any chosen file is dropped |
| ResourceForm.ResourceFormState.HandleFileChange | src/components/mediaManager/ResourceForm.jsx:96-103 | a chosen file becomes the upload and its name the media URL; no file changes nothing |
| ResourceForm.SaveFailureMessage | src/components/mediaManager/ResourceForm.jsx:160-164 | the store's message when it has one, else the default text; never empty |
| ResourceForm.ResourceFormState.HandleSubmit | src/components/mediaManager/ResourceForm.jsx:107-169 | a blank title asks nothing; a file of an upload type is uploaded under its key and a failure stops before saving; the row is updated for an existing resource, else inserted, with the public URL as media path after an upload; success closes the form; submitting ends |
| Lists.Project | src/lib/patientDataUtils.jsx:34 | `map(p => p.id)`: one projected value per element, position by position |
| Sorting.SortDesc | src/hooks/useDashboardLogic.jsx:33 | sorting by time keeps every element: same length, same multiset |
| Sorting.SortDescSorted | src/hooks/useDashboardLogic.jsx:33 | the sorted list is newest first |
| Sorting.SortDescStable | src/hooks/useResultsPageLogic.jsx:33 | the sort is stable: elements with the same time keep their relative order |
| Strings.JoinSplit | src/pages/ResourcesPage.jsx:112-115 | splitting at a separator loses nothing: joining the pieces gives the text back |

## Left out

- Supabase: the network calls are not modelled. Each reply, error, generated id and storage verdict is a parameter, except the two phase-table failures named on the `PhaseTable.UpdateCurrentPhase` line below. The tables that `patientDataUtils` reads and writes are an in-memory class. The ordering a query asks the database for is not modelled: a fetched list is taken as given.
- Authentication, login, routing and the route guards are not part of this model. A logged-in user appears only as an optional user id.
- Rendering is not modelled: charts, animations, icons, layout, and the texts of the four meditation phase components. Where a screen depends on a computed choice, the model returns that choice as a value, for example `Resources.Display` or `ResultsPage.PageView`.
- Toasts are modelled only as returned outcomes or messages. Their titles and styles are left out.
- Dates are not modelled beyond ints and calendar triples:
  - timestamps are ints, and the current time is the parameter `now`; one `now` stands for every clock read in a handler;
  - `new Date(...)` on a birth date is the parameter `parsed`;
  - the date-fns `parse`/`format` calls are parameters;
  - `toLocaleDateString`, `Intl`, `formatDate` (`src/lib/utils.js:8-29`) and the time-zone shift of the journal card are not modelled.
- `Strings.Less` stands in for `localeCompare` and for the UTF-16 order of the default `sort`: it compares code points. `Strings.Lower` stands in for `toLowerCase` and covers ASCII letters only.
- Floating point is not modelled. Scores and averages are integers, and `Math.round` is `floor(x + 1/2)`. `Number(x) || 0` and `parseInt` never meet `NaN`: a string that does not parse counts as 0 (`Questionnaire.Parsed`). `Strings.ParseInt` reads decimal digits only: the `0x` hexadecimal prefix that `parseInt` also accepts without a radix is not modelled, and no modelled caller passes such text. The questionnaire's progress percentage is left out.
- Concurrency is not modelled. The asynchronous steps of a handler run in sequence, and no promise holds across simultaneous submissions. `PhaseTable.CurrentPhase` picks the newest row. Among rows with the same creation time it picks the first in table order, an order the database does not promise.
- Randomness is not modelled. The random file-name stem (`src/components/mediaManager/ResourceForm.jsx:119`) is the parameter `stem`.
- The browser download in `exportToCSV` (`src/lib/utils.js:63-78`) is not modelled. The model stops at the CSV text.
- The localStorage helpers are not part of this model.
- The UUID helper is not part of this model.
- The dead modules are not part of this model: `data.jsx`, `dataManager.jsx`, `useResultsData.js`, `QuantumAnalysis.jsx`, `Results.jsx`, `Dashboard.jsx` and `DashboardPage.jsx`. They are unrouted, or they import names that do not exist.
- `getPatientCurrentPhase` and its callers do not fit together, and each side is modelled as written:
  - `getPatientCurrentPhase` returns the bare row (`src/lib/patientDataUtils.jsx:148`), but `useResultsPageLogic.jsx:38` and `patientDataUtils.jsx:73` destructure `{data, error}` from it;
  - the hook reads `phase_number`, but the rows store `fase_numero`.
  So `ResultsPage.ResultsPageLogic.FetchData` takes the destructured phase data as a parameter. The phase attachment in `getPatientById` (`src/lib/patientDataUtils.jsx:73-87`) is not modelled. When `.single()` finds no row, its error code `PGRST116` is ignored and the read returns no row; `PhaseTable.CurrentPhase` returning `None` is that case.
- The dashboard statistics card reads `recentlyAdded`, but the hook names that statistic `newLast7Days`. The model keeps the hook's name and leaves out the card.
- The page fetches that only load data are not modelled: the journal page's fetch (`src/pages/PatientJournalPage.jsx:27-55`), the patient form's load in edit mode (`src/hooks/usePatientFormLogic.jsx:51-68`), the questionnaire page's patient fetch (`src/hooks/useQuantumAnalysisLogic.jsx:17-36`) and the resources page's fetch. Their results are parameters of the modelled handlers.
- `handlePrint` and `handleShare` (`src/hooks/useResultsPageLogic.jsx:76-103`) call browser APIs and are not modelled.
- The generic field setters are not modelled separately: the resource form's `handleInputChange` and `handleSelectChange` (`src/components/mediaManager/ResourceForm.jsx:87-94`), and the media manager's search and filter inputs. The filters appear as parameters of `Media.FilteredResources`.
- PhaseTable.UpdateCurrentPhase: two store failures have no parameter. (1) When `getPatientCurrentPhase` fails with any error other than `PGRST116`, it returns null (`src/lib/patientDataUtils.jsx:144-147`). `updatePatientCurrentPhase` then creates a second phase-1 row for a patient who already has one (lines 155-160). The model always reads the current row. (2) An error from the update itself (lines 164-175) is not modelled: the update fails only when no row has the id. The same holds for `PhaseTable.PatientStore.UpdatePatientCurrentPhase` and the phase manager card's submission.
- PhaseManager.PhaseManagerCard.HandlePhaseChange: requires its value to parse as an integer. The selector only offers the six option values, and `PhaseManager.OptionValuesParse` proves that each of them parses.
- Storage.StoragePathRoundTrip: the round trip, `Storage.UploadFoundAgain` and `Storage.AsWrittenMissesUpload` assume `Storage.PlainProject`: the project name does not itself contain the text `resource_uploads/`. The public URL layout `https://<project>.supabase.co/storage/v1/object/public/<bucket>/<key>` is the storage service's, and the model takes it as given.

## Findings

| source | as written | input that shows it | evidently intended | confidence | as-written member | corrected member |
|---|---|---|---|---|---|---|
| src/pages/MediaManagerPage.jsx:100-102 | An upload is stored under the key `resource_uploads/<file>` in the `resource_uploads` bucket (`src/components/mediaManager/ResourceForm.jsx:118-133`). The delete handler cuts the path from the first `resource_uploads/` of the public URL. That is the bucket's own segment, so it asks storage to remove `resource_uploads/resource_uploads/<file>`. | project `p`, file name `a.mp3`: the URL `https://p.supabase.co/storage/v1/object/public/resource_uploads/resource_uploads/a.mp3` gives `resource_uploads/resource_uploads/a.mp3` | the text after the bucket segment, i.e. the uploaded key `resource_uploads/a.mp3`, so the file is really removed | not executed; assumes the storage service's public URL layout | Storage.AsWrittenMissesUpload | Storage.StoragePathRoundTrip |
