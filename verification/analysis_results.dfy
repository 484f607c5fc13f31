/** The analysis results panel: the result record, the colour band of the
    overall score and the choice between the loading view, nothing, and the
    report. */
module AnalysisResults {
  import opened Common

  /** The matched and missing terms of one category, in display order. */
  datatype Terms = Terms(matched: seq<string>, missing: seq<string>)

  /** `AnalysisResult`: the overall score, three sub-scores and the keyword
      and skill term lists. The scores are whole percentages. */
  datatype AnalysisResult = AnalysisResult(
    score: int,
    keywordMatch: int,
    skillsMatch: int,
    requirementsMatch: int,
    keywords: Terms,
    skills: Terms)

  /** The three colours of the score ring. */
  datatype Band = Red | Amber | Green

  /** Bands ordered from worst to best. */
  function Rank(b: Band): nat
  {
    match b
    case Red => 0
    case Amber => 1
    case Green => 2
  }

  /** The stroke colour of each band. */
  function Hex(b: Band): string
  {
    match b
    case Green => "#10b981"
    case Amber => "#f59e0b"
    case Red => "#ef4444"
  }

  /** The band of `getScoreColor`: 80 and above, 60 up to 80, below 60. */
  function ScoreBand(score: int): (b: Band)
    ensures b == Green <==> 80 <= score
    ensures b == Amber <==> 60 <= score < 80
    ensures b == Red <==> score < 60
  {
    if score >= 80 then Green
    else if score >= 60 then Amber
    else Red
  }

  /** `getScoreColor`: the hex colour of the score's band; distinct bands
      get distinct colours. */
  function ScoreColor(score: int): (c: string)
    ensures c == "#10b981" <==> 80 <= score
    ensures c == "#f59e0b" <==> 60 <= score < 80
    ensures c == "#ef4444" <==> score < 60
  {
    Hex(ScoreBand(score))
  }

  /** Raising a score never moves it to a worse band. */
  lemma BandMonotone(a: int, b: int)
    requires a <= b
    ensures Rank(ScoreBand(a)) <= Rank(ScoreBand(b))
  {
  }

  /** One rendered term: React's `key` (the index) and the text. */
  datatype Chip = Chip(key: nat, caption: string)

  /** A term list as rendered: one chip per term, or the placeholder line. */
  datatype TermList = Chips(chips: seq<Chip>) | Placeholder(text: string)

  /** The chips for `items`, keyed from `first` on. */
  function ChipsFrom(items: seq<string>, first: nat): (cs: seq<Chip>)
    ensures |cs| == |items|
    ensures forall i :: 0 <= i < |cs| ==> cs[i].key == first + i && cs[i].caption == items[i]
    decreases |items|
  {
    if |items| == 0 then [] else [Chip(first, items[0])] + ChipsFrom(items[1..], first + 1)
  }

  /** The texts shown by a sequence of chips. */
  function Labels(cs: seq<Chip>): seq<string>
    decreases |cs|
  {
    if |cs| == 0 then [] else [cs[0].caption] + Labels(cs[1..])
  }

  /** Reading the chips back gives the terms, in input order. */
  lemma {:induction false} LabelsOfChips(items: seq<string>, first: nat)
    ensures Labels(ChipsFrom(items, first)) == items
    decreases |items|
  {
    if |items| > 0 {
      LabelsOfChips(items[1..], first + 1);
    }
  }

  /** `v` shows `items` in order, or `placeholder` exactly when there are
      none. */
  predicate Displays(v: TermList, items: seq<string>, placeholder: string)
  {
    && (v.Placeholder? <==> |items| == 0)
    && (v.Placeholder? ==> v.text == placeholder)
    && (v.Chips? ==> Labels(v.chips) == items)
  }

  /** A term list renders its terms in order, or the placeholder exactly when
      it is empty. */
  function RenderTerms(items: seq<string>, placeholder: string): (v: TermList)
    ensures Displays(v, items, placeholder)
  {
    if |items| > 0 then
      LabelsOfChips(items, 0);
      Chips(ChipsFrom(items, 0))
    else Placeholder(placeholder)
  }

  const NoMatchedKeywords: string := "No matching keywords found"
  const NoMissingKeywords: string := "No missing keywords"
  const NoMatchedSkills: string := "No matching skills found"
  const NoMissingSkills: string := "No missing skills"

  /** What the report shows of one result. */
  datatype Report = Report(
    score: int,
    ringColor: string,
    keywordMatch: int,
    skillsMatch: int,
    requirementsMatch: int,
    matchedKeywords: TermList,
    missingKeywords: TermList,
    matchedSkills: TermList,
    missingSkills: TermList)

  /** What the component renders. */
  datatype ResultsView = ResultsLoading | ResultsHidden | ResultsShown(report: Report)

  /** The report shows the result's four scores, the score's band colour,
      and each term list with its own placeholder. */
  function ReportOf(r: AnalysisResult): (rep: Report)
    ensures rep.score == r.score && rep.ringColor == ScoreColor(r.score)
    ensures rep.keywordMatch == r.keywordMatch && rep.skillsMatch == r.skillsMatch
      && rep.requirementsMatch == r.requirementsMatch
    ensures Displays(rep.matchedKeywords, r.keywords.matched, NoMatchedKeywords)
    ensures Displays(rep.missingKeywords, r.keywords.missing, NoMissingKeywords)
    ensures Displays(rep.matchedSkills, r.skills.matched, NoMatchedSkills)
    ensures Displays(rep.missingSkills, r.skills.missing, NoMissingSkills)
  {
    Report(
      r.score, ScoreColor(r.score), r.keywordMatch, r.skillsMatch, r.requirementsMatch,
      RenderTerms(r.keywords.matched, NoMatchedKeywords),
      RenderTerms(r.keywords.missing, NoMissingKeywords),
      RenderTerms(r.skills.matched, NoMatchedSkills),
      RenderTerms(r.skills.missing, NoMissingSkills))
  }

  /** The component: loading beats results, and no results renders nothing. */
  function Render(results: Option<AnalysisResult>, isLoading: bool): (v: ResultsView)
    ensures isLoading <==> v == ResultsLoading
    ensures v == ResultsHidden <==> !isLoading && results.None?
    ensures v.ResultsShown? ==> results.Some? && v.report == ReportOf(results.value)
  {
    if isLoading then ResultsLoading
    else if results.None? then ResultsHidden
    else ResultsShown(ReportOf(results.value))
  }

  /** While loading, what `results` holds makes no difference. */
  lemma LoadingIgnoresResults(a: Option<AnalysisResult>, b: Option<AnalysisResult>)
    ensures Render(a, true) == Render(b, true)
  {
  }
}
