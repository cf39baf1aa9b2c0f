/** The `Analyze` page: choosing a PDF or pasting text, submitting it, and
    what the page does with the backend's answer. */
module ClientAnalyze {
  import opened Wrappers
  import opened Strings
  import opened NumberText
  import opened AiAnalysis
  import opened JsonExtract
  import opened Collections
  import opened Server
  import opened ServerProperties
  import opened Browser

  /** A file from the picker or a drop: its name and MIME type. */
  datatype PickedFile = PickedFile(name: string, mimeType: string)

  datatype InputMode = TextMode | UploadMode

  /** The one request a submission makes: the PDF form post, whose
      `role_target` query parameter is sent even when empty, or the JSON
      post, where an empty role is sent as `null`. */
  datatype AnalyzeRequest =
    | PdfUpload(userId: string, file: PickedFile, roleQuery: string)
    | TextSubmission(userId: string, resumeText: string, role: Option<string>)

  /** Whether the page takes a file: only type `application/pdf`. */
  predicate IsPdf(f: Option<PickedFile>) {
    f.Some? && f.value.mimeType == "application/pdf"
  }

  /** What a submission sends, `None` when there is neither text (after
      trimming) nor a file. */
  function RequestFor(userId: string, resumeText: string, roleTarget: string, file: Option<PickedFile>): Option<AnalyzeRequest> {
    if JsTrim(resumeText) == "" && file.None? then None
    else if file.Some? then Some(PdfUpload(userId, file.value, roleTarget))
    else Some(TextSubmission(userId, resumeText, if roleTarget == "" then None else Some(roleTarget)))
  }

  /** A chosen file always wins over pasted text; without a file the text
      is sent as typed, and nothing is sent only when the text is blank. */
  lemma RequestChoice(userId: string, resumeText: string, roleTarget: string, file: Option<PickedFile>)
    ensures RequestFor(userId, resumeText, roleTarget, file).None? <==> file.None? && TrimmedAway(resumeText)
    ensures file.Some? ==> RequestFor(userId, resumeText, roleTarget, file) == Some(PdfUpload(userId, file.value, roleTarget))
    ensures file.None? && !TrimmedAway(resumeText) ==>
      var req := RequestFor(userId, resumeText, roleTarget, file).value;
      req.TextSubmission? && req.resumeText == resumeText && (req.role.None? <==> roleTarget == "")
  {
    TrimEmptyIff(resumeText, IsJsSpace);
  }

  /** Text made only of white space. */
  predicate TrimmedAway(s: string) {
    forall k :: 0 <= k < |s| ==> IsJsSpace(s[k])
  }

  /** What the page does with an answer: the toast, where it navigates, and
      the usage count it writes to storage. */
  datatype Outcome = Outcome(toast: Toast, next: Option<Path>, storedUsage: Option<int>)

  /** A 403 answer. */
  predicate LimitRefusal(response: Option<ErrorResponse>) {
    response.Some? && response.value.status == 403
  }

  /** The page's handling of an answer, counted from the page's own copy
      of the user. */
  function AnalyzeOutcome<J>(user: SessionUser, reply: Reply<Created<J>>): Outcome {
    match reply
    case Ok(created) =>
      Outcome(Toast(Positive, "Analysis complete!"), Some(ResultsRoute(created.analysisId)), Some(user.usageCount + 1))
    case Failed(response) =>
      if LimitRefusal(response) then
        Outcome(Toast(Negative, "Usage limit reached. Please upgrade."), Some(PricingRoute), None)
      else
        Outcome(Toast(Negative, DetailOr(response, "Analysis failed")), None, None)
  }

  /** The page's state. */
  class AnalyzePage {
    var resumeText: string
    var roleTarget: string
    var file: Option<PickedFile>
    var loading: bool
    var dragOver: bool
    var inputMode: InputMode
    var toast: Option<Toast>
    var navigatedTo: Option<Path>
    const user: SessionUser
    const storage: Storage

    constructor (user: SessionUser, storage: Storage)
      ensures this.user == user && this.storage == storage
      ensures resumeText == "" && roleTarget == "" && file.None? && !loading && !dragOver
      ensures inputMode == TextMode && toast.None? && navigatedTo.None?
    {
      this.user := user;
      this.storage := storage;
      resumeText := "";
      roleTarget := "";
      file := None;
      loading := false;
      dragOver := false;
      inputMode := TextMode;
      toast := None;
      navigatedTo := None;
    }

    /** Whether the analyze button is enabled. */
    predicate CanSubmit()
      reads this
    {
      !loading && !(JsTrim(resumeText) == "" && file.None?)
    }

    /** `3 - user.usage_count`, the remaining analyses shown under the
        button. */
    function Remaining(): int
      reads this
    {
      FreeTierLimit - user.usageCount
    }

    /** `handleFileChange`: a PDF replaces the file and switches to upload
        mode; anything else, or nothing, leaves the page as it was but for
        the toast. */
    method ChooseFile(picked: Option<PickedFile>)
      modifies this
      ensures IsPdf(picked) ==> file == picked && inputMode == UploadMode && toast == old(toast)
      ensures !IsPdf(picked) ==>
        file == old(file) && inputMode == old(inputMode) && toast == Some(Toast(Negative, "Please upload a PDF file"))
      ensures resumeText == old(resumeText) && roleTarget == old(roleTarget) && loading == old(loading)
      ensures dragOver == old(dragOver) && navigatedTo == old(navigatedTo)
    {
      if picked.Some? && picked.value.mimeType == "application/pdf" {
        file := picked;
        inputMode := UploadMode;
      } else {
        toast := Some(Toast(Negative, "Please upload a PDF file"));
      }
    }

    /** `handleDrop`: the drag highlight ends, then the dropped file is
        taken as the picker's would be. */
    method DropFile(dropped: Option<PickedFile>)
      modifies this
      ensures !dragOver
      ensures IsPdf(dropped) ==> file == dropped && inputMode == UploadMode && toast == old(toast)
      ensures !IsPdf(dropped) ==>
        file == old(file) && inputMode == old(inputMode) && toast == Some(Toast(Negative, "Please upload a PDF file"))
      ensures resumeText == old(resumeText) && roleTarget == old(roleTarget) && loading == old(loading)
      ensures navigatedTo == old(navigatedTo)
    {
      dragOver := false;
      ChooseFile(dropped);
    }

    /** `handleAnalyze`; `reply` is the backend's answer to the request
        made, `None` when the page refuses to submit. */
    method Analyze<J>(reply: Reply<Created<J>>) returns (request: Option<AnalyzeRequest>)
      modifies this, storage
      ensures request == RequestFor(user.id, old(resumeText), old(roleTarget), old(file))
      ensures request.None? ==>
        toast == Some(Toast(Negative, "Please provide your resume"))
        && storage.items == old(storage.items) && navigatedTo == old(navigatedTo) && loading == old(loading)
      ensures request.Some? ==>
        var o := AnalyzeOutcome(user, reply);
        && toast == Some(o.toast)
        && navigatedTo == (if o.next.Some? then o.next else old(navigatedTo))
        && storage.items == (if o.storedUsage.Some? then old(storage.items)["usageCount" := IntToString(o.storedUsage.value)] else old(storage.items))
        && !loading
      ensures resumeText == old(resumeText) && roleTarget == old(roleTarget) && file == old(file)
      ensures inputMode == old(inputMode) && dragOver == old(dragOver)
    {
      request := RequestFor(user.id, resumeText, roleTarget, file);
      if request.None? {
        toast := Some(Toast(Negative, "Please provide your resume"));
        return;
      }
      loading := true;
      match reply {
        case Ok(created) =>
          storage.SetItem("usageCount", IntToString(user.usageCount + 1));
          toast := Some(Toast(Positive, "Analysis complete!"));
          navigatedTo := Some(ResultsRoute(created.analysisId));
        case Failed(response) =>
          if response.Some? && response.value.status == 403 {
            toast := Some(Toast(Negative, "Usage limit reached. Please upgrade."));
            navigatedTo := Some(PricingRoute);
          } else {
            toast := Some(Toast(Negative, DetailOr(response, "Analysis failed")));
          }
      }
      loading := false;
    }
  }

  /** The button is enabled exactly when the page is idle and a submission
      would make a request, so no second request starts while one is in
      flight. */
  lemma CanSubmitIffRequest(page: AnalyzePage)
    ensures page.CanSubmit() <==> !page.loading && RequestFor(page.user.id, page.resumeText, page.roleTarget, page.file).Some?
  {
  }

  /** A user the backend has already counted to the limit is told to
      upgrade and sent to the pricing page, whichever way they submit, and
      nothing is written to storage. */
  lemma AtLimitGoesToPricing<J>(db: Db<J>, user: SessionUser, text: string, pdf: Option<seq<Option<string>>>,
                               replies: seq<AiReply>, parse: Parser<J>, isObject: J -> bool, newId: string, now: int)
    requires |replies| == MaxAttempts && user.id != ""
    requires GetUser(db, user.id).Success? && GetUser(db, user.id).value.usageCount >= FreeTierLimit
    ensures var limited := Outcome(Toast(Negative, "Usage limit reached. Please upgrade."), Some(PricingRoute), None);
      && AnalyzeOutcome(user, Delivered(AnalyzeTextStep(db, user.id, text, replies, parse, isObject, newId, now).1)) == limited
      && AnalyzeOutcome(user, Delivered(AnalyzePdfStep(db, user.id, pdf, replies, parse, isObject, newId, now).1)) == limited
  {
    LimitReachedRefusesAll(db, user.id, text, pdf, replies, parse, isObject, newId, now);
  }

  /** While the page's copy of the user agrees with the backend, an
      analysis the backend stored (see `AnalyzeTextOutcome`) leaves the
      backend's new count in storage and opens the new analysis. */
  lemma StoredCountMatchesBackend<J>(db: Db<J>, db': Db<J>, user: SessionUser, text: string, c: Created<J>, now: int)
    requires GetUser(db, user.id).Success? && GetUser(db, user.id).value.usageCount == user.usageCount
    requires Stored(db, db', user.id, text, c, now)
    ensures GetUser(db', user.id).Success?
    ensures AnalyzeOutcome(user, Delivered<Created<J>>(Success(c))).storedUsage == Some(GetUser(db', user.id).value.usageCount)
    ensures AnalyzeOutcome(user, Delivered<Created<J>>(Success(c))).next == Some(ResultsRoute(c.analysisId))
  {
  }

  /** The page never refreshes its copy of the user, so a second analysis
      in the same session writes the same count again: storage falls one
      behind the backend until the dashboard reloads it. */
  lemma SecondAnalysisLeavesStaleCount<J>(db: Db<J>, db1: Db<J>, db2: Db<J>, user: SessionUser, text: string,
                                          c1: Created<J>, c2: Created<J>, now: int, later: int)
    requires GetUser(db, user.id).Success? && GetUser(db, user.id).value.usageCount == user.usageCount
    requires Stored(db, db1, user.id, text, c1, now)
    requires GetUser(db1, user.id).Success? && Stored(db1, db2, user.id, text, c2, later)
    ensures GetUser(db2, user.id).Success? && GetUser(db2, user.id).value.usageCount == user.usageCount + 2
    ensures AnalyzeOutcome(user, Delivered<Created<J>>(Success(c2))).storedUsage == Some(user.usageCount + 1)
  {
  }

  /** While the page's copy of the user agrees with the backend, the count
      shown under the button is the backend's remaining uses, between 0 and
      the free tier. */
  lemma RemainingMatchesBackend<J>(page: AnalyzePage, db: Db<J>)
    requires Valid(db) && GetUser(db, page.user.id).Success?
    requires page.user.usageCount == GetUser(db, page.user.id).value.usageCount
    ensures page.Remaining() == FreeTierLimit - GetUser(db, page.user.id).value.usageCount
    ensures 0 <= page.Remaining() <= FreeTierLimit
  {
    HistoryWithinFreeTier(db, page.user.id);
  }

  /** The page's user is fixed, so after the backend stores an analysis the
      count shown stays where it was: one more than the remaining uses the
      backend reports. */
  lemma RemainingAfterAnalysis<J>(page: AnalyzePage, db: Db<J>, db': Db<J>, text: string, c: Created<J>, now: int)
    requires GetUser(db, page.user.id).Success?
    requires page.user.usageCount == GetUser(db, page.user.id).value.usageCount
    requires Stored(db, db', page.user.id, text, c, now)
    ensures page.Remaining() == c.remainingUses + 1
    ensures GetUser(db', page.user.id).Success?
    ensures page.Remaining() == FreeTierLimit - GetUser(db', page.user.id).value.usageCount + 1
  {
  }
}
