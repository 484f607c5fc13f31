# Resume matcher UI — Dafny model

This project models the decision logic of a front-end mockup in which a user
uploads a resume, enters a job posting URL and sees a match score, keyword
and skill lists, and optimization suggestions. The analysis itself is mock
data, so the model covers the rules the React components apply around it:

- `ResumeUpload` (`resume_upload.dfy`): the file validator (MIME allow-list,
  5 MB limit, type checked first) and the drop, picker and remove handlers
  as functions from the stored file to a `Reaction` (new stored file, files
  passed to `onResumeUpload`, toast).
- `AnalysisResults` (`analysis_results.dfy`): the `AnalysisResult` record,
  the three-band score colour, the per-list rendering (one chip per term or
  a placeholder) and the loading / nothing / report choice.
- `OptimizationSuggestions` (`optimization_suggestions.dfy`): the
  `Suggestion` record, the three category filters, the groups in severity
  order and the loading / nothing / groups choice.
- `JobUrlInput` (`job_url_input.dfy`): typing, submitting and the delayed
  `onJobUrlSubmit` call as a small state machine. Whether a string parses as
  a URL (`new URL`, the basic URL parser of section 4.4 of the WHATWG URL
  Standard) is the function parameter `validUrl`.
- `IndexPage` (`index_page.dfy`): the page state (resume, URL,
  `isAnalyzing`, results, suggestions) with upload, URL submit and analysis
  settlement as transitions, its invariant, and which panels are visible.
- `Common` (`common.dfy`): `Option` for `null`, the browser `File` record and
  JavaScript truthiness of an optional string.

Timers and `await` are atomic events: the form's 800 ms timer is `Elapse`,
and the settlement of an `analyzeResume` call is `AnalysisSettled` with an
outcome that is either a (result, suggestions) pair or a failure. Toasts
appear only as tags naming their title.

## Model

| member | source | states |
|---|---|---|
| `ResumeUpload.ValidateFile` | src/components/ResumeUpload.tsx:55-78 | A file is accepted iff its type is PDF, DOC or DOCX and its size is at most 5 MB; a wrong type is reported as "Invalid file type" whatever the size; "File too large" only for an allowed type over the limit |
| `ResumeUpload.SizeBoundary` | src/components/ResumeUpload.tsx:57-68 | 5,242,880 bytes is accepted and 5,242,881 is rejected as too large |
| `ResumeUpload.Offer` | src/components/ResumeUpload.tsx:44-51 | An accepted file becomes the stored file and is passed to the page exactly once; a rejected one leaves the stored file, notifies nobody and shows the rejection's toast |
| `ResumeUpload.HandleFileChange` | src/components/ResumeUpload.tsx:41-53 | A change that selects no file changes nothing; otherwise the first file is offered, and the stored file changes only to that file together with its single notification |
| `ResumeUpload.HandleDropAsWritten` | src/components/ResumeUpload.tsx:26-39 | The drop handler throws exactly when the drop carries no file; otherwise it offers the first file |
| `ResumeUpload.DropWithoutFileThrows` | src/components/ResumeUpload.tsx:30-31 | A drop with an empty file list raises an exception instead of being ignored |
| `ResumeUpload.HandleDrop` | src/components/ResumeUpload.tsx:26-39 | Corrected drop: an empty drop changes nothing, and every drop that carries a file behaves as written |
| `ResumeUpload.RemoveFile` | src/components/ResumeUpload.tsx:80-86 | Removal clears the stored file, notifies nobody and shows the "Resume removed" toast |
| `ResumeUpload.RunNotifiesAcceptedOnly` | src/components/ResumeUpload.tsx:26-53 | Over any sequence of drops, picks and removals (drops through the corrected handler, which agrees with the source's stored file and notifications because its throw precedes any state change), the page is told of exactly the accepted files, in order, and a stored file is always one the validator accepts |
| `AnalysisResults.ScoreBand` | src/components/AnalysisResults.tsx:195-199 | Green iff score ≥ 80, amber iff 60 ≤ score < 80, red iff score < 60 |
| `AnalysisResults.ScoreColor` | src/components/AnalysisResults.tsx:195-199 | The colour is `#10b981` iff score ≥ 80, `#f59e0b` iff 60 ≤ score < 80, `#ef4444` iff score < 60 |
| `AnalysisResults.BandMonotone` | src/components/AnalysisResults.tsx:195-199 | Raising a score never moves it to a worse band |
| `AnalysisResults.ChipsFrom` | src/components/AnalysisResults.tsx:115-123 | One chip per term, keyed by its index and showing the term at that index |
| `AnalysisResults.LabelsOfChips` | src/components/AnalysisResults.tsx:115-123 | Reading the chips back yields the term list, in input order |
| `AnalysisResults.RenderTerms` | src/components/AnalysisResults.tsx:133-141 | A term list shows the given placeholder text exactly when it is empty, and otherwise its terms in order |
| `AnalysisResults.ReportOf` | src/components/AnalysisResults.tsx:64-183 | The report shows the result's score with its band colour, the three sub-scores unchanged, and each of the four term lists in order with its own placeholder ("No matching keywords found", "No missing keywords", "No matching skills found", "No missing skills") exactly when empty |
| `AnalysisResults.Render` | src/components/AnalysisResults.tsx:26-41 | Loading is shown iff `isLoading`; nothing iff not loading and no results; otherwise the report of the given result |
| `AnalysisResults.LoadingIgnoresResults` | src/components/AnalysisResults.tsx:27-39 | While loading, the rendering does not depend on the results |
| `OptimizationSuggestions.OfCategory` | src/components/OptimizationSuggestions.tsx:37-39 | Every suggestion in a group has the group's category, and a group is never longer than the input |
| `OptimizationSuggestions.OfCategoryCount` | src/components/OptimizationSuggestions.tsx:37-39 | A group holds each suggestion of its category exactly as often as the input does, and no suggestion of another category |
| `OptimizationSuggestions.OfCategoryMembers` | src/components/OptimizationSuggestions.tsx:37-39 | A suggestion is in a group iff it is in the input and has the group's category |
| `OptimizationSuggestions.OfCategoryKeepsOrder` | src/components/OptimizationSuggestions.tsx:37-39 | A group is a subsequence of the input, so the relative input order of its suggestions is kept |
| `OptimizationSuggestions.GroupsPartition` | src/components/OptimizationSuggestions.tsx:37-39 | The three groups together hold every suggestion exactly once (as multisets), so their lengths sum to the input length |
| `OptimizationSuggestions.Grouped` | src/components/OptimizationSuggestions.tsx:52-74 | Each displayed group is non-empty, titled for its category and holds that category's filter result; groups appear in strictly increasing severity order |
| `OptimizationSuggestions.GroupShownIffPresent` | src/components/OptimizationSuggestions.tsx:52-74 | A category's group is displayed iff some suggestion has that category |
| `OptimizationSuggestions.FlattenGrouped` | src/components/OptimizationSuggestions.tsx:52-74 | The panel read top to bottom lists the critical group, then the important group, then the recommendations, each exactly its filter result |
| `OptimizationSuggestions.DisplayIsStableSort` | src/components/OptimizationSuggestions.tsx:37-74 | The panel read top to bottom holds every input suggestion exactly once, is ordered by severity, most severe first, and lists each category's suggestions in their input order |
| `OptimizationSuggestions.Render` | src/components/OptimizationSuggestions.tsx:20-34 | Loading is shown iff `isLoading`; nothing iff not loading and the list is null or empty; otherwise the severity groups, at least one |
| `JobUrlInput.HandleInputChange` | src/components/JobUrlInput.tsx:26-30 | The text is stored, and the input is marked valid iff it is empty or parses as a URL |
| `JobUrlInput.HandleSubmit` | src/components/JobUrlInput.tsx:32-56 | An empty submit changes nothing but the "URL required" toast; a non-empty one that does not parse only marks the input invalid; a non-empty parsing URL only starts loading and arms the timer with that text, leaving the validity flag alone; no submit calls back directly |
| `JobUrlInput.TimerElapsed` | src/components/JobUrlInput.tsx:57-64 | When the timer fires, the captured URL is passed to `onJobUrlSubmit`, loading ends, the "Job URL submitted" toast shows, and the text and validity flag are untouched; without an armed timer nothing happens |
| `JobUrlInput.Step` | src/components/JobUrlInput.tsx:26-105 | While loading, typing and submitting have no effect, because the input and the button are disabled; while enabled, typing goes to `handleInputChange` and submitting to `handleSubmit`; the timer always fires |
| `JobUrlInput.StepConsistent` | src/components/JobUrlInput.tsx:54-64 | Each event keeps the form loading exactly while a timer holds a non-empty parsing URL, and any callback carries the armed URL |
| `JobUrlInput.RunSubmitsOnlyValid` | src/components/JobUrlInput.tsx:32-65 | Over any event sequence from a consistent form, `onJobUrlSubmit` only ever receives non-empty URLs that parse |
| `JobUrlInput.ValidSubmitCallsBackOnce` | src/components/JobUrlInput.tsx:54-64 | A valid submit disables the form, and the timer then calls back once with exactly the submitted text and re-enables it |
| `JobUrlInput.InitialConsistent` | src/components/JobUrlInput.tsx:12-14 | The initial form is empty, marked valid, enabled and consistent |
| `IndexPage.HandleResumeUpload` | src/pages/Index.tsx:25-32 | The file is stored; existing results are cleared together with suggestions, absent ones are left as they are; no analysis starts |
| `IndexPage.PerformAnalysis` | src/pages/Index.tsx:43-53 | A missing file or empty URL changes no state and shows "Missing information"; otherwise the page enters the analyzing state with one more call in flight |
| `IndexPage.HandleJobUrlSubmit` | src/pages/Index.tsx:34-50 | The URL is stored; with a resume and a non-empty URL the page also enters the analyzing state with one more call in flight, and otherwise nothing else changes; with a resume and an empty URL only "Missing information" shows, otherwise no toast |
| `IndexPage.SettleAsWritten` | src/pages/Index.tsx:55-75 | Success sets results and suggestions together from the same outcome; failure keeps both; either way `isAnalyzing` becomes false |
| `IndexPage.OverlapClearsAnalyzingAsWritten` | src/pages/Index.tsx:53-75 | With two analyses in flight, the first settlement leaves the page not analyzing while one call still runs |
| `IndexPage.Settle` | src/pages/Index.tsx:55-75 | Corrected settlement: same results, suggestions and toast as written, but the page stays analyzing exactly while calls remain in flight; identical to the original when only one call was in flight |
| `IndexPage.Step` | src/pages/Index.tsx:25-76 | The page dispatches an upload to `handleResumeUpload` and a URL to `handleJobUrlSubmit`; a settlement acts only with a call in flight; results change only by an upload clearing them or a success installing its own result |
| `IndexPage.StepAsWritten` | src/pages/Index.tsx:25-76 | The source's dispatch: identical to `Step` except that a settlement uses the as-written `finally` |
| `IndexPage.StepAsWrittenPreservesInvariant` | src/pages/Index.tsx:25-76 | Every as-written transition keeps results and suggestions null together and `isAnalyzing` true only while some call is in flight |
| `IndexPage.ReachableInvariantAsWritten` | src/pages/Index.tsx:17-76 | Every page the source reaches from the initial one has results and suggestions null together and is analyzing only with a call in flight |
| `IndexPage.StepPreservesInvariant` | src/pages/Index.tsx:25-76 | With the corrected settlement, every transition keeps results and suggestions null together and keeps `isAnalyzing` true exactly while an analysis is in flight |
| `IndexPage.ReachableInvariant` | src/pages/Index.tsx:17-76 | Every page the corrected machine reaches from the initial one satisfies that invariant |
| `IndexPage.View` | src/pages/Index.tsx:101-126 | The results panel is mounted iff analyzing or results exist, the suggestions panel iff analyzing or suggestions exist, the placeholder iff resume, URL, analysis and results are all absent; while analyzing both panels show their loading views; otherwise the results panel shows the report of the page's own result and the suggestions panel its own suggestions grouped, or nothing for an empty list |
| `IndexPage.PanelsTogether` | src/pages/Index.tsx:101-115 | Whenever results and suggestions are null together, both panels are mounted or neither is, and the placeholder never shows beside them |
| `IndexPage.LastSuccessShowsReport` | src/pages/Index.tsx:57-75 | When the last analysis in flight succeeds, the page stops analyzing and the results panel shows that result's report |

## Left out

- `src/utils/resumeAnalyzer.ts` is a mock (random scores, fixed lists, delays); `analyzeResume` is only the outcome carried by `AnalysisSettled`, and its text-extraction helpers are not part of this model.
- URL parsing itself is the parameter `validUrl`; the model says nothing about which strings parse.
- Timers and `await` are atomic events; the 800 ms and 2 s delays and their interleaving with renders are not modelled. In particular each event sees the current state, while the source's callbacks read state captured at the last render (a resume uploaded during the 800 ms URL timer is not seen by the pending `handleJobUrlSubmit`).
- `AnalysisResults.ScoreBand`: scores are whole numbers here; the source's `number` could hold fractions, which the mock never produces (it floors every score).
- The SVG ring arithmetic, the MB formatting with `toFixed`, drag-hover state, animations and CSS classes are presentation only.
- The `console.error` call in the failure branch of `performAnalysis` (src/pages/Index.tsx:67) is logging only. The mock `analyzeResume` never rejects (src/utils/resumeAnalyzer.ts:14-94), so the `Failed` outcome is unreachable in the program as written; it is modelled because the page handles it.
- Toasts are tags naming their title; their texts, variants and timing are left out.
- `ResumeUpload` shows the drop zone and picker only while no file is stored; the handlers are modelled for any stored file.
- `Navbar` and `Hero` are static presentation and are not part of this model.

## Findings

| source | as written | input that shows it | evidently intended | confidence | as-written member | corrected member |
|---|---|---|---|---|---|---|
| src/components/ResumeUpload.tsx:30-31 | `handleDrop` passes `files[0]` to `validateFile` without checking it exists, and reading `.type` of `undefined` throws | dropping a text selection or a link, whose file list is empty | ignore a drop without a file, as `handleFileChange` does | high, not executed | `ResumeUpload.HandleDropAsWritten` | `ResumeUpload.HandleDrop` |
| src/pages/Index.tsx:73-75 | every settlement sets `isAnalyzing` to false, even while another analysis is still running | upload a resume, submit a URL, submit a second URL between 800 ms and 2000 ms after the first submit (the first call runs from 800 ms to 2800 ms, and the second starts 800 ms after its own submit, so before 2800 ms); the first settlement hides the loading views while the second call runs | stay analyzing until the last call in flight settles | medium, not executed | `IndexPage.OverlapClearsAnalyzingAsWritten` | `IndexPage.Settle` |
