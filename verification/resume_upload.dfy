/** The resume upload component: a validator for the chosen file and the
    handlers that store an accepted file and pass it to the page. */
module ResumeUpload {
  import opened Common

  const Pdf: string := "application/pdf"
  const Doc: string := "application/msword"
  const Docx: string := "application/vnd.openxmlformats-officedocument.wordprocessingml.document"

  /** The allow-list, in the order the component declares it. */
  const AllowedTypes: seq<string> := [Pdf, Doc, Docx]

  /** 5 MB, compared with a strict `>`. */
  const MaxSize: nat := 5 * 1024 * 1024

  /** The notifications the component raises, by title. */
  datatype Toast = InvalidFileType | FileTooLarge | ResumeUploaded | ResumeRemoved

  /** The outcome of validating a file; each rejection names its toast. */
  datatype Verdict = Accepted | Rejected(reason: Toast)

  /** The three document types a resume may have. */
  predicate IsResumeType(t: string)
  {
    t == Pdf || t == Doc || t == Docx
  }

  /** `validateFile`: the type is checked before the size, so a file that is
      both of the wrong type and too large is reported as the wrong type. */
  function ValidateFile(f: File): (v: Verdict)
    ensures v == Accepted <==> IsResumeType(f.mimeType) && f.size <= MaxSize
    ensures v == Rejected(InvalidFileType) <==> !IsResumeType(f.mimeType)
    ensures v == Rejected(FileTooLarge) <==> IsResumeType(f.mimeType) && MaxSize < f.size
  {
    if f.mimeType !in AllowedTypes then Rejected(InvalidFileType)
    else if f.size > MaxSize then Rejected(FileTooLarge)
    else Accepted
  }

  /** The size limit is 5,242,880 bytes inclusive. */
  lemma SizeBoundary(name: string, t: string)
    requires IsResumeType(t)
    ensures ValidateFile(File(name, t, 5242880)) == Accepted
    ensures ValidateFile(File(name, t, 5242881)) == Rejected(FileTooLarge)
  {
  }

  /** What one handler invocation does: the file the component now stores,
      the files passed to `onResumeUpload` (in call order) and the toast shown. */
  datatype Reaction = Reaction(stored: Option<File>, notified: seq<File>, toast: Option<Toast>)

  /** The shared body of both upload handlers once a file is in hand. */
  function Offer(stored: Option<File>, f: File): (r: Reaction)
    ensures ValidateFile(f) == Accepted ==>
      r.stored == Some(f) && r.notified == [f] && r.toast == Some(ResumeUploaded)
    ensures ValidateFile(f) != Accepted ==>
      r.stored == stored && r.notified == [] && r.toast == Some(ValidateFile(f).reason)
  {
    match ValidateFile(f)
    case Accepted => Reaction(Some(f), [f], Some(ResumeUploaded))
    case Rejected(why) => Reaction(stored, [], Some(why))
  }

  /** `handleFileChange`: a change event that selects no file (a `null` or
      empty `FileList`, both given here as the empty sequence) does nothing. */
  function HandleFileChange(stored: Option<File>, files: seq<File>): (r: Reaction)
    ensures |files| == 0 ==> r == Reaction(stored, [], None)
    ensures |files| > 0 ==> r == Offer(stored, files[0])
    ensures r.stored == stored || (|files| > 0 && r.stored == Some(files[0]) && r.notified == [files[0]])
  {
    if |files| == 0 then Reaction(stored, [], None) else Offer(stored, files[0])
  }

  /** `handleDrop` as written: it reads `files[0]` without checking that the
      drop carried a file, and `validateFile(undefined)` then throws a
      `TypeError` reading `.type`. `None` stands for that exception. */
  function HandleDropAsWritten(stored: Option<File>, files: seq<File>): (r: Option<Reaction>)
    ensures r.None? <==> |files| == 0
    ensures r.Some? ==> r.value == Offer(stored, files[0])
  {
    if |files| == 0 then None else Some(Offer(stored, files[0]))
  }

  /** Dropping something that is not a file (a text selection, a link) makes
      the handler throw instead of ignoring the drop. */
  lemma DropWithoutFileThrows(stored: Option<File>)
    ensures HandleDropAsWritten(stored, []).None?
  {
  }

  /** `handleDrop` as evidently intended: a drop with no file is ignored, like
      a picker change with no file; otherwise it behaves as written. */
  function HandleDrop(stored: Option<File>, files: seq<File>): (r: Reaction)
    ensures |files| == 0 ==> r == Reaction(stored, [], None)
    ensures HandleDropAsWritten(stored, files).Some? ==> r == HandleDropAsWritten(stored, files).value
  {
    if |files| == 0 then Reaction(stored, [], None) else Offer(stored, files[0])
  }

  /** `removeFile`: clears the stored file without telling the page. */
  function RemoveFile(stored: Option<File>): (r: Reaction)
    ensures r.stored.None? && r.notified == [] && r.toast == Some(ResumeRemoved)
  {
    Reaction(None, [], Some(ResumeRemoved))
  }

  /** The user actions the component handles. */
  datatype Action = Drop(dropped: seq<File>) | Pick(picked: seq<File>) | Remove

  /** One action. Drops go to the corrected `HandleDrop`; where the source
      throws on an empty drop it does so before storing or notifying
      anything, so the stored file and the notifications agree with it. */
  function Handle(stored: Option<File>, a: Action): Reaction
  {
    match a
    case Drop(files) => HandleDrop(stored, files)
    case Pick(files) => HandleFileChange(stored, files)
    case Remove => RemoveFile(stored)
  }

  datatype Session = Session(stored: Option<File>, notified: seq<File>)

  /** The effect of a sequence of actions: the final stored file and every
      file passed to `onResumeUpload`, in order. */
  function Run(stored: Option<File>, actions: seq<Action>): Session
    decreases |actions|
  {
    if |actions| == 0 then Session(stored, [])
    else
      var r := Handle(stored, actions[0]);
      var rest := Run(r.stored, actions[1..]);
      Session(rest.stored, r.notified + rest.notified)
  }

  /** The file an action offers to the validator, if any. */
  function Offered(a: Action): Option<File>
  {
    match a
    case Drop(files) => if |files| == 0 then None else Some(files[0])
    case Pick(files) => if |files| == 0 then None else Some(files[0])
    case Remove => None
  }

  /** The offered files the validator accepts, in order. */
  function AcceptedFiles(actions: seq<Action>): (fs: seq<File>)
    ensures forall f :: f in fs ==> ValidateFile(f) == Accepted
    decreases |actions|
  {
    if |actions| == 0 then []
    else
      var o := Offered(actions[0]);
      (if o.Some? && ValidateFile(o.value) == Accepted then [o.value] else []) + AcceptedFiles(actions[1..])
  }

  /** Over any run, the page is told of exactly the accepted files, each once
      and in order, and a stored file is always an accepted one. */
  lemma {:induction false} RunNotifiesAcceptedOnly(stored: Option<File>, actions: seq<Action>)
    requires stored.Some? ==> ValidateFile(stored.value) == Accepted
    ensures Run(stored, actions).notified == AcceptedFiles(actions)
    ensures Run(stored, actions).stored.Some? ==> ValidateFile(Run(stored, actions).stored.value) == Accepted
    decreases |actions|
  {
    if |actions| > 0 {
      var r := Handle(stored, actions[0]);
      RunNotifiesAcceptedOnly(r.stored, actions[1..]);
    }
  }
}
