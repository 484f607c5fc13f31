/** The page that owns the resume, the job URL, the analysis flag and the
    last results, and reacts to the two forms and to the analysis call. */
module IndexPage {
  import opened Common
  import AnalysisResults
  import OptimizationSuggestions

  type Result = AnalysisResults.AnalysisResult
  type Suggestion = OptimizationSuggestions.Suggestion

  /** The page's state. `inFlight` counts the `analyzeResume` calls that have
      started and not yet settled; the page itself keeps no such count, the
      model needs it to know which settlements can happen. */
  datatype Page = Page(
    resumeFile: Option<File>,
    jobUrl: Option<string>,
    isAnalyzing: bool,
    analysisResults: Option<Result>,
    suggestions: Option<seq<Suggestion>>,
    inFlight: nat)

  const Initial: Page := Page(None, None, false, None, None, 0)

  /** The notifications the page raises, by title. */
  datatype Toast = MissingInformation | AnalysisComplete | AnalysisFailed

  /** How one `analyzeResume` call settles: with a result and its
      suggestions, or by throwing. */
  datatype Analysis = Succeeded(results: Result, suggestions: seq<Suggestion>) | Failed

  datatype Outcome = Outcome(page: Page, toast: Option<Toast>)

  /** `handleResumeUpload`: the file is stored and earlier results are
      discarded, together with their suggestions; no analysis starts. */
  function HandleResumeUpload(p: Page, file: File): (q: Page)
    ensures q.resumeFile == Some(file)
    ensures p.analysisResults.Some? ==> q.analysisResults.None? && q.suggestions.None?
    ensures p.analysisResults.None? ==> q.analysisResults == p.analysisResults && q.suggestions == p.suggestions
    ensures q.jobUrl == p.jobUrl && q.isAnalyzing == p.isAnalyzing && q.inFlight == p.inFlight
  {
    if p.analysisResults.Some? then p.(resumeFile := Some(file), analysisResults := None, suggestions := None)
    else p.(resumeFile := Some(file))
  }

  /** The synchronous part of `performAnalysis`: with a file and a non-empty
      URL the page enters the analyzing state and one call is in flight;
      otherwise only the "Missing information" toast is shown. */
  function PerformAnalysis(p: Page, file: Option<File>, url: string): (r: Outcome)
    ensures file.None? || url == "" ==> r == Outcome(p, Some(MissingInformation))
    ensures file.Some? && url != "" ==>
      r.page == p.(isAnalyzing := true, inFlight := p.inFlight + 1) && r.toast.None?
  {
    if file.None? || url == "" then Outcome(p, Some(MissingInformation))
    else Outcome(p.(isAnalyzing := true, inFlight := p.inFlight + 1), None)
  }

  /** `handleJobUrlSubmit`: the URL is stored, and an analysis starts exactly
      when a resume is already stored and the URL is non-empty. */
  function HandleJobUrlSubmit(p: Page, url: string): (r: Outcome)
    ensures r.page.jobUrl == Some(url)
    ensures p.resumeFile.Some? && url != "" ==>
      r.page == p.(jobUrl := Some(url), isAnalyzing := true, inFlight := p.inFlight + 1)
    ensures !(p.resumeFile.Some? && url != "") ==> r.page == p.(jobUrl := Some(url))
    ensures r.page.resumeFile == p.resumeFile
    ensures r.page.analysisResults == p.analysisResults && r.page.suggestions == p.suggestions
    ensures p.resumeFile.Some? && url == "" ==> r.toast == Some(MissingInformation)
    ensures p.resumeFile.None? || url != "" ==> r.toast.None?
  {
    var stored := p.(jobUrl := Some(url));
    if p.resumeFile.Some? then PerformAnalysis(stored, p.resumeFile, url)
    else Outcome(stored, None)
  }

  /** Settling an analysis as written: success sets results and suggestions
      together, failure keeps the previous ones, and in both cases the
      `finally` block clears `isAnalyzing`, even when another analysis is
      still in flight. */
  function SettleAsWritten(p: Page, a: Analysis): (r: Outcome)
    requires p.inFlight > 0
    ensures !r.page.isAnalyzing && r.page.inFlight == p.inFlight - 1
    ensures a.Succeeded? ==>
      r.page.analysisResults == Some(a.results) && r.page.suggestions == Some(a.suggestions)
      && r.toast == Some(AnalysisComplete)
    ensures a.Failed? ==>
      r.page.analysisResults == p.analysisResults && r.page.suggestions == p.suggestions
      && r.toast == Some(AnalysisFailed)
    ensures r.page.resumeFile == p.resumeFile && r.page.jobUrl == p.jobUrl
  {
    var done := p.(isAnalyzing := false, inFlight := p.inFlight - 1);
    match a
    case Succeeded(res, ss) => Outcome(done.(analysisResults := Some(res), suggestions := Some(ss)), Some(AnalysisComplete))
    case Failed => Outcome(done, Some(AnalysisFailed))
  }

  /** Two overlapping analyses: after the first settles the page is no longer
      analyzing although the second call is still running, so the loading
      views disappear early. */
  lemma OverlapClearsAnalyzingAsWritten(file: File, first: string, second: string, res: Result, ss: seq<Suggestion>)
    requires first != "" && second != ""
    ensures
      var p := HandleJobUrlSubmit(HandleJobUrlSubmit(HandleResumeUpload(Initial, file), first).page, second).page;
      p.inFlight == 2 && !SettleAsWritten(p, Succeeded(res, ss)).page.isAnalyzing
      && SettleAsWritten(p, Succeeded(res, ss)).page.inFlight == 1
  {
  }

  /** Settling an analysis as evidently intended: as written, except that
      the page stays analyzing while another call is in flight. */
  function Settle(p: Page, a: Analysis): (r: Outcome)
    requires p.inFlight > 0
    ensures r.page.inFlight == p.inFlight - 1
    ensures r.page.isAnalyzing <==> r.page.inFlight > 0
    ensures p.inFlight == 1 ==> r == SettleAsWritten(p, a)
    ensures r.page == SettleAsWritten(p, a).page.(isAnalyzing := r.page.isAnalyzing)
    ensures r.toast == SettleAsWritten(p, a).toast
  {
    var done := p.(isAnalyzing := p.inFlight > 1, inFlight := p.inFlight - 1);
    match a
    case Succeeded(res, ss) => Outcome(done.(analysisResults := Some(res), suggestions := Some(ss)), Some(AnalysisComplete))
    case Failed => Outcome(done, Some(AnalysisFailed))
  }

  /** What can happen to the page: the resume form passes it an accepted
      file, the URL form passes it a URL, or an analysis settles. */
  datatype Event = ResumeUploaded(file: File) | JobUrlSubmitted(url: string) | AnalysisSettled(outcome: Analysis)

  /** The page's event dispatch, with the corrected settlement. A
      settlement needs a call in flight; without one nothing happens. */
  function Step(p: Page, e: Event): (r: Outcome)
    ensures e.ResumeUploaded? ==> r == Outcome(HandleResumeUpload(p, e.file), None)
    ensures e.JobUrlSubmitted? ==> r == HandleJobUrlSubmit(p, e.url)
    ensures e.AnalysisSettled? && p.inFlight == 0 ==> r == Outcome(p, None)
    ensures e.AnalysisSettled? && p.inFlight > 0 ==> r == Settle(p, e.outcome)
    ensures r.page.analysisResults != p.analysisResults ==>
      (e.ResumeUploaded? && r.page.analysisResults.None?)
      || (e.AnalysisSettled? && e.outcome.Succeeded? && r.page.analysisResults == Some(e.outcome.results))
  {
    match e
    case ResumeUploaded(f) => Outcome(HandleResumeUpload(p, f), None)
    case JobUrlSubmitted(u) => HandleJobUrlSubmit(p, u)
    case AnalysisSettled(a) => if p.inFlight == 0 then Outcome(p, None) else Settle(p, a)
  }

  /** The same dispatch with the settlement as written. */
  function StepAsWritten(p: Page, e: Event): (r: Outcome)
    ensures !e.AnalysisSettled? || p.inFlight == 0 ==> r == Step(p, e)
    ensures e.AnalysisSettled? && p.inFlight > 0 ==> r == SettleAsWritten(p, e.outcome)
  {
    match e
    case ResumeUploaded(f) => Outcome(HandleResumeUpload(p, f), None)
    case JobUrlSubmitted(u) => HandleJobUrlSubmit(p, u)
    case AnalysisSettled(a) => if p.inFlight == 0 then Outcome(p, None) else SettleAsWritten(p, a)
  }

  /** Results and suggestions are present together. */
  predicate ResultsPaired(p: Page)
  {
    p.analysisResults.None? <==> p.suggestions.None?
  }

  /** Results and suggestions are present together, and the page is
      analyzing exactly while a call is in flight. */
  predicate Invariant(p: Page)
  {
    && ResultsPaired(p)
    && (p.isAnalyzing <==> p.inFlight > 0)
  }

  /** What the page as written keeps: results and suggestions are present
      together, and it is analyzing only while some call is in flight
      (though not always while one is). */
  predicate InvariantAsWritten(p: Page)
  {
    && ResultsPaired(p)
    && (p.isAnalyzing ==> p.inFlight > 0)
  }

  lemma StepPreservesInvariant(p: Page, e: Event)
    requires Invariant(p)
    ensures Invariant(Step(p, e).page)
  {
  }

  lemma StepAsWrittenPreservesInvariant(p: Page, e: Event)
    requires InvariantAsWritten(p)
    ensures InvariantAsWritten(StepAsWritten(p, e).page)
  {
  }

  function Run(p: Page, events: seq<Event>): Page
    decreases |events|
  {
    if |events| == 0 then p else Run(Step(p, events[0]).page, events[1..])
  }

  function RunAsWritten(p: Page, events: seq<Event>): Page
    decreases |events|
  {
    if |events| == 0 then p else RunAsWritten(StepAsWritten(p, events[0]).page, events[1..])
  }

  /** Every page the corrected machine reaches from the initial one
      satisfies the invariant. */
  lemma {:induction false} ReachableInvariant(events: seq<Event>)
    ensures Invariant(Run(Initial, events))
  {
    RunPreservesInvariant(Initial, events);
  }

  lemma {:induction false} RunPreservesInvariant(p: Page, events: seq<Event>)
    requires Invariant(p)
    ensures Invariant(Run(p, events))
    decreases |events|
  {
    if |events| > 0 {
      StepPreservesInvariant(p, events[0]);
      RunPreservesInvariant(Step(p, events[0]).page, events[1..]);
    }
  }

  /** Every page the source reaches from the initial one has results and
      suggestions present together, and is analyzing only with a call in
      flight. */
  lemma {:induction false} ReachableInvariantAsWritten(events: seq<Event>)
    ensures InvariantAsWritten(RunAsWritten(Initial, events))
  {
    RunAsWrittenPreservesInvariant(Initial, events);
  }

  lemma {:induction false} RunAsWrittenPreservesInvariant(p: Page, events: seq<Event>)
    requires InvariantAsWritten(p)
    ensures InvariantAsWritten(RunAsWritten(p, events))
    decreases |events|
  {
    if |events| > 0 {
      StepAsWrittenPreservesInvariant(p, events[0]);
      RunAsWrittenPreservesInvariant(StepAsWritten(p, events[0]).page, events[1..]);
    }
  }

  /** The results panel is mounted while analyzing or when results exist. */
  predicate ShowsResultsPanel(p: Page)
  {
    p.isAnalyzing || p.analysisResults.Some?
  }

  /** The suggestions panel is mounted while analyzing or when suggestions exist. */
  predicate ShowsSuggestionsPanel(p: Page)
  {
    p.isAnalyzing || p.suggestions.Some?
  }

  /** The "get started" line shows only on an untouched page. */
  predicate ShowsPlaceholder(p: Page)
  {
    p.resumeFile.None? && !Truthy(p.jobUrl) && !p.isAnalyzing && p.analysisResults.None?
  }

  /** The page's lower half: the two panels (when mounted) and the placeholder. */
  datatype PageView = PageView(
    results: Option<AnalysisResults.ResultsView>,
    suggestions: Option<OptimizationSuggestions.SuggestionsView>,
    placeholder: bool)

  function View(p: Page): (v: PageView)
    ensures v.results.Some? <==> ShowsResultsPanel(p)
    ensures v.suggestions.Some? <==> ShowsSuggestionsPanel(p)
    ensures v.placeholder <==> ShowsPlaceholder(p)
    ensures p.isAnalyzing ==>
      v.results == Some(AnalysisResults.ResultsLoading)
      && v.suggestions == Some(OptimizationSuggestions.SuggestionsLoading)
      && !v.placeholder
    ensures !p.isAnalyzing && p.analysisResults.Some? ==>
      v.results == Some(AnalysisResults.ResultsShown(AnalysisResults.ReportOf(p.analysisResults.value)))
    ensures !p.isAnalyzing && p.suggestions.Some? && |p.suggestions.value| > 0 ==>
      v.suggestions == Some(OptimizationSuggestions.SuggestionsShown(OptimizationSuggestions.Grouped(p.suggestions.value)))
    ensures !p.isAnalyzing && p.suggestions == Some([]) ==>
      v.suggestions == Some(OptimizationSuggestions.SuggestionsHidden)
  {
    PageView(
      if ShowsResultsPanel(p) then Some(AnalysisResults.Render(p.analysisResults, p.isAnalyzing)) else None,
      if ShowsSuggestionsPanel(p) then Some(OptimizationSuggestions.Render(p.suggestions, p.isAnalyzing)) else None,
      ShowsPlaceholder(p))
  }

  /** When results and suggestions are present together, as on every page
      the source reaches, both panels are mounted or neither is, and the
      placeholder never shows beside them. */
  lemma PanelsTogether(p: Page)
    requires ResultsPaired(p)
    ensures ShowsResultsPanel(p) <==> ShowsSuggestionsPanel(p)
    ensures ShowsPlaceholder(p) ==> !ShowsResultsPanel(p)
  {
  }

  /** Once the last analysis succeeds, the page shows that result's report. */
  lemma LastSuccessShowsReport(p: Page, res: Result, ss: seq<Suggestion>)
    requires p.inFlight == 1
    ensures var q := Step(p, AnalysisSettled(Succeeded(res, ss))).page;
      !q.isAnalyzing && View(q).results == Some(AnalysisResults.ResultsShown(AnalysisResults.ReportOf(res)))
  {
  }
}
