/** The job URL form: typing, submitting, and the delayed call of
    `onJobUrlSubmit`. Whether a string parses as a URL (the basic URL parser
    of the WHATWG URL Standard, section 4.4, reached through `new URL`) is
    the parameter `validUrl`. */
module JobUrlInput {
  import opened Common

  /** The form's state. `pending` is the URL captured by the submit timer
      that has not fired yet. */
  datatype Form = Form(jobUrl: string, isLoading: bool, isValidUrl: bool, pending: Option<string>)

  const Initial: Form := Form("", false, true, None)

  /** The notifications the form raises, by title. */
  datatype Toast = UrlRequired | InvalidUrl | JobUrlSubmitted

  /** What one event does besides changing the form: the toast shown and the
      URL passed to `onJobUrlSubmit`, if any. */
  datatype Effect = Effect(toast: Option<Toast>, submitted: Option<string>)

  const Quiet: Effect := Effect(None, None)

  datatype Outcome = Outcome(form: Form, effect: Effect)

  /** Both the input and the submit button are disabled while loading. */
  predicate InputDisabled(f: Form) { f.isLoading }
  predicate SubmitDisabled(f: Form) { f.isLoading }

  /** `handleInputChange`: the text is stored; the input is flagged invalid
      only when it is non-empty and does not parse. */
  function HandleInputChange(f: Form, value: string, validUrl: string -> bool): (r: Form)
    ensures r.jobUrl == value
    ensures r.isValidUrl <==> value == "" || validUrl(value)
    ensures r.isLoading == f.isLoading && r.pending == f.pending
  {
    f.(jobUrl := value, isValidUrl := value == "" || validUrl(value))
  }

  /** `handleSubmit`: the empty check comes first, then the parse check;
      only a non-empty, parsing URL starts loading and arms the timer with
      the current text. */
  function HandleSubmit(f: Form, validUrl: string -> bool): (r: Outcome)
    ensures r.effect.submitted.None?
    ensures f.jobUrl == "" ==> r == Outcome(f, Effect(Some(UrlRequired), None))
    ensures f.jobUrl != "" && !validUrl(f.jobUrl) ==>
      r.form == f.(isValidUrl := false) && r.effect.toast == Some(InvalidUrl)
    ensures r.form.isLoading != f.isLoading ==> f.jobUrl != "" && validUrl(f.jobUrl)
    ensures f.jobUrl != "" && validUrl(f.jobUrl) ==>
      r == Outcome(f.(isLoading := true, pending := Some(f.jobUrl)), Quiet)
    ensures r.form.jobUrl == f.jobUrl
  {
    if f.jobUrl == "" then Outcome(f, Effect(Some(UrlRequired), None))
    else if !validUrl(f.jobUrl) then Outcome(f.(isValidUrl := false), Effect(Some(InvalidUrl), None))
    else Outcome(f.(isLoading := true, pending := Some(f.jobUrl)), Quiet)
  }

  /** The 800 ms timer fires: `onJobUrlSubmit` receives the captured URL and
      loading ends. Without an armed timer nothing happens. */
  function TimerElapsed(f: Form): (r: Outcome)
    ensures f.pending.None? ==> r == Outcome(f, Quiet)
    ensures f.pending.Some? ==>
      r.effect.submitted == f.pending && !r.form.isLoading && r.form.pending.None?
      && r.effect.toast == Some(JobUrlSubmitted) && r.form.jobUrl == f.jobUrl
    ensures f.pending.Some? ==> r.form == f.(isLoading := false, pending := None)
  {
    match f.pending
    case None => Outcome(f, Quiet)
    case Some(url) => Outcome(f.(isLoading := false, pending := None), Effect(Some(JobUrlSubmitted), Some(url)))
  }

  datatype Event = Type(value: string) | Submit | Elapse

  /** One event. A disabled input cannot be typed into and a disabled button
      cannot submit, so while loading only the timer acts. */
  function Step(f: Form, e: Event, validUrl: string -> bool): (r: Outcome)
    ensures f.isLoading && !e.Elapse? ==> r == Outcome(f, Quiet)
    ensures !f.isLoading && e.Type? ==> r == Outcome(HandleInputChange(f, e.value, validUrl), Quiet)
    ensures !f.isLoading && e.Submit? ==> r == HandleSubmit(f, validUrl)
    ensures e.Elapse? ==> r == TimerElapsed(f)
  {
    match e
    case Type(v) => if InputDisabled(f) then Outcome(f, Quiet) else Outcome(HandleInputChange(f, v, validUrl), Quiet)
    case Submit => if SubmitDisabled(f) then Outcome(f, Quiet) else HandleSubmit(f, validUrl)
    case Elapse => TimerElapsed(f)
  }

  /** The form is loading exactly while a timer is armed, and an armed
      timer holds a non-empty URL that parses. */
  predicate Consistent(f: Form, validUrl: string -> bool)
  {
    && (f.isLoading <==> f.pending.Some?)
    && (f.pending.Some? ==> f.pending.value != "" && validUrl(f.pending.value))
  }

  lemma StepConsistent(f: Form, e: Event, validUrl: string -> bool)
    requires Consistent(f, validUrl)
    ensures Consistent(Step(f, e, validUrl).form, validUrl)
    ensures Step(f, e, validUrl).effect.submitted.Some? ==>
      Step(f, e, validUrl).effect.submitted == f.pending
  {
  }

  /** The final form and every URL passed to `onJobUrlSubmit`, in order. */
  datatype Session = Session(form: Form, submitted: seq<string>)

  function Run(f: Form, events: seq<Event>, validUrl: string -> bool): Session
    decreases |events|
  {
    if |events| == 0 then Session(f, [])
    else
      var r := Step(f, events[0], validUrl);
      var rest := Run(r.form, events[1..], validUrl);
      var now := if r.effect.submitted.Some? then [r.effect.submitted.value] else [];
      Session(rest.form, now + rest.submitted)
  }

  /** From the initial form, `onJobUrlSubmit` only ever receives non-empty
      URLs that parse, and the form stays consistent. */
  lemma {:induction false} RunSubmitsOnlyValid(f: Form, events: seq<Event>, validUrl: string -> bool)
    requires Consistent(f, validUrl)
    ensures Consistent(Run(f, events, validUrl).form, validUrl)
    ensures forall u :: u in Run(f, events, validUrl).submitted ==> u != "" && validUrl(u)
    decreases |events|
  {
    if |events| > 0 {
      StepConsistent(f, events[0], validUrl);
      RunSubmitsOnlyValid(Step(f, events[0], validUrl).form, events[1..], validUrl);
    }
  }

  /** A valid submit disables the form; when the timer fires,
      `onJobUrlSubmit` receives exactly the text that was submitted, once,
      and the form is enabled again. */
  lemma ValidSubmitCallsBackOnce(f: Form, validUrl: string -> bool)
    requires !f.isLoading && f.jobUrl != "" && validUrl(f.jobUrl)
    ensures var armed := Step(f, Submit, validUrl).form;
      InputDisabled(armed) && SubmitDisabled(armed)
      && Run(f, [Submit, Elapse], validUrl).submitted == [f.jobUrl]
      && !Run(f, [Submit, Elapse], validUrl).form.isLoading
  {
  }

  lemma InitialConsistent(validUrl: string -> bool)
    ensures Consistent(Initial, validUrl)
    ensures Initial.isValidUrl && !InputDisabled(Initial)
  {
  }
}
