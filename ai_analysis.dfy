/** The server's AI step (`analyze_resume_with_ai`): validate the text, then
    ask the model up to three times for a JSON analysis. The model's replies
    are an oracle: one reply per attempt, in order. */
module AiAnalysis {
  import opened Wrappers
  import opened Strings
  import opened ResumeValidator
  import opened JsonExtract

  /** Attempts made before giving up. */
  const MaxAttempts := 3

  /** What one call to the chat-completions API comes back with. */
  datatype AiReply =
    | Raised(error: string)    // the API call itself raised, with this message
    | NoMessage                // no choices, or the first choice has no message
    | NullContent              // the message's content is `None`
    | Content(text: string)    // the message's content

  /** Why one attempt failed. */
  datatype AttemptError = CallFailed(error: string) | EmptyReply | NoContent | BadJson(cause: ExtractError) {
    /** `str(e)` of the exception the attempt raised. */
    function Text(): string {
      match this
      case CallFailed(error) => error
      case EmptyReply => "Groq response has no message"
      case NoContent => "'NoneType' object has no attribute 'strip'"
      case BadJson(cause) => cause.Text()
    }
  }

  /** Why the analysis failed, as the HTTP error the server raises. */
  datatype AiError = Rejected(reason: Message) | RetriesExhausted(last: AttemptError) {
    function Status(): int {
      match this
      case Rejected(_) => 400
      case RetriesExhausted(_) => 500
    }

    function Detail(): string {
      match this
      case Rejected(reason) => reason.Text()
      case RetriesExhausted(last) => "AI analysis failed after retries: " + last.Text()
    }
  }

  /** One attempt: the reply's content, stripped, through `extract_json`. */
  function Attempt<J>(reply: AiReply, parse: Parser<J>): (r: Result<J, AttemptError>)
  {
    match reply
    case Raised(e) => Failure(CallFailed(e))
    case NoMessage => Failure(EmptyReply)
    case NullContent => Failure(NoContent)
    case Content(text) =>
      match Extracted(PyStrip(text), parse)
      case Success(v) => Success(v)
      case Failure(e) => Failure(BadJson(e))
  }

  /** The outcome of each attempt, had it been made. */
  function Outcomes<J>(replies: seq<AiReply>, parse: Parser<J>): (os: seq<Result<J, AttemptError>>)
    ensures |os| == |replies|
  {
    if replies == [] then [] else [Attempt(replies[0], parse)] + Outcomes(replies[1..], parse)
  }

  lemma {:induction false} OutcomeAt<J>(replies: seq<AiReply>, parse: Parser<J>, i: nat)
    requires i < |replies|
    ensures Outcomes(replies, parse)[i] == Attempt(replies[i], parse)
  {
    if i > 0 {
      OutcomeAt(replies[1..], parse, i - 1);
    }
  }

  /** How a run of attempts ends. */
  datatype RetryOutcome<J, E> = Analysed(value: J, attempts: nat) | GaveUp(lastError: E)

  /** Making the attempts in order: the first that succeeds wins; if none
      does, the error of the last one is kept. */
  function Retry<J, E>(outcomes: seq<Result<J, E>>): (r: RetryOutcome<J, E>)
    requires |outcomes| >= 1
    ensures r.Analysed? <==> exists i :: 0 <= i < |outcomes| && outcomes[i].Success?
    ensures r.Analysed? ==>
      && 1 <= r.attempts <= |outcomes|
      && outcomes[r.attempts - 1] == Success(r.value)
      && forall i :: 0 <= i < r.attempts - 1 ==> outcomes[i].Failure?
    ensures r.GaveUp? ==> outcomes[|outcomes| - 1] == Failure(r.lastError)
  {
    match outcomes[0]
    case Success(v) => Analysed(v, 1)
    case Failure(e) =>
      if |outcomes| == 1 then GaveUp(e)
      else
        var rest := outcomes[1..];
        assert forall i :: 1 <= i < |outcomes| ==> outcomes[i] == rest[i - 1];
        match Retry(rest)
        case Analysed(v, n) => Analysed(v, n + 1)
        case GaveUp(last) => GaveUp(last)
  }

  /** What `analyze_resume_with_ai` returns or raises, given the model's
      reply to each of the three attempts. */
  function AnalyzeWithAi<J>(text: string, replies: seq<AiReply>, parse: Parser<J>): Result<J, AiError>
    requires |replies| == MaxAttempts
  {
    var (valid, message) := ValidateResumeContent(text);
    if !valid then Failure(Rejected(message))
    else
      match Retry(Outcomes(replies, parse))
      case Analysed(v, _) => Success(v)
      case GaveUp(last) => Failure(RetriesExhausted(last))
  }

  /** How many calls to the model `analyze_resume_with_ai` makes. */
  function AttemptsMade<J>(text: string, replies: seq<AiReply>, parse: Parser<J>): nat
    requires |replies| == MaxAttempts
  {
    if !ValidateResumeContent(text).0 then 0
    else
      match Retry(Outcomes(replies, parse))
      case Analysed(_, n) => n
      case GaveUp(_) => MaxAttempts
  }

  /** One attempt, running `extract_json`'s loop on the reply's content. */
  method TryReply<J>(replies: seq<AiReply>, i: nat, parse: Parser<J>) returns (r: Result<J, AttemptError>)
    requires i < |replies|
    ensures r == Outcomes(replies, parse)[i]
  {
    OutcomeAt(replies, parse, i);
    match replies[i] {
      case Raised(e) => r := Failure(CallFailed(e));
      case NoMessage => r := Failure(EmptyReply);
      case NullContent => r := Failure(NoContent);
      case Content(text) =>
        var extracted := ExtractJson(PyStrip(text), parse);
        if extracted.Success? {
          r := Success(extracted.value);
        } else {
          r := Failure(BadJson(extracted.error));
        }
    }
  }

  /** The attempt loop of `analyze_resume_with_ai`: at most `MaxAttempts`
      calls, stopping at the first that succeeds. */
  method RetryLoop<J>(replies: seq<AiReply>, parse: Parser<J>) returns (o: RetryOutcome<J, AttemptError>)
    requires |replies| == MaxAttempts
    ensures o == Retry(Outcomes(replies, parse))
  {
    ghost var os := Outcomes(replies, parse);
    var last := CallFailed("None");
    var attempt := 0;
    while attempt < MaxAttempts
      invariant 0 <= attempt <= MaxAttempts
      invariant forall k :: 0 <= k < attempt ==> os[k].Failure?
      invariant attempt >= 1 ==> os[attempt - 1] == Failure(last)
    {
      var outcome := TryReply(replies, attempt, parse);
      if outcome.Success? {
        RetryFirstSuccess(os, attempt);
        return Analysed(outcome.value, attempt + 1);
      }
      last := outcome.error;
      attempt := attempt + 1;
    }
    RetryAllFail(os);
    o := GaveUp(last);
  }

  /** `analyze_resume_with_ai`: the validation, then the attempt loop;
      `attempts` counts the calls made to the model. */
  method AnalyzeResumeWithAi<J>(text: string, replies: seq<AiReply>, parse: Parser<J>)
      returns (r: Result<J, AiError>, attempts: nat)
    requires |replies| == MaxAttempts
    ensures r == AnalyzeWithAi(text, replies, parse)
    ensures attempts == AttemptsMade(text, replies, parse)
  {
    var (valid, message) := ValidateResumeContent(text);
    if !valid {
      return Failure(Rejected(message)), 0;
    }
    var o := RetryLoop(replies, parse);
    match o {
      case Analysed(v, n) => r, attempts := Success(v), n;
      case GaveUp(last) => r, attempts := Failure(RetriesExhausted(last)), MaxAttempts;
    }
  }

  /** The run stops at the first attempt that succeeds. */
  lemma RetryFirstSuccess<J, E>(outcomes: seq<Result<J, E>>, i: nat)
    requires i < |outcomes| && outcomes[i].Success?
    requires forall k :: 0 <= k < i ==> outcomes[k].Failure?
    ensures Retry(outcomes) == Analysed(outcomes[i].value, i + 1)
  {
    var o := Retry(outcomes);
    assert o.Analysed?;
  }

  /** When every attempt fails the run gives up with the last error. */
  lemma RetryAllFail<J, E>(outcomes: seq<Result<J, E>>)
    requires |outcomes| >= 1 && forall k :: 0 <= k < |outcomes| ==> outcomes[k].Failure?
    ensures Retry(outcomes) == GaveUp(outcomes[|outcomes| - 1].error)
  {
  }

  /** Text the validator rejects never reaches the model. */
  lemma RejectedBeforeAnyCall<J>(text: string, replies: seq<AiReply>, parse: Parser<J>)
    requires |replies| == MaxAttempts
    ensures !ValidateResumeContent(text).0 <==> AnalyzeWithAi(text, replies, parse).Failure? && AnalyzeWithAi(text, replies, parse).error.Rejected?
    ensures !ValidateResumeContent(text).0 ==>
      AnalyzeWithAi(text, replies, parse) == Failure(Rejected(ValidateResumeContent(text).1))
      && AttemptsMade(text, replies, parse) == 0
  {
  }

  /** For valid text, the analysis returns the value of the first attempt
      that succeeds, after that many calls. */
  lemma FirstGoodReplyWins<J>(text: string, replies: seq<AiReply>, parse: Parser<J>, i: nat)
    requires |replies| == MaxAttempts
    requires ValidateResumeContent(text).0
    requires i < MaxAttempts && Outcomes(replies, parse)[i].Success?
    requires forall k :: 0 <= k < i ==> Outcomes(replies, parse)[k].Failure?
    ensures AnalyzeWithAi(text, replies, parse) == Success(Outcomes(replies, parse)[i].value)
    ensures AttemptsMade(text, replies, parse) == i + 1
  {
    RetryFirstSuccess(Outcomes(replies, parse), i);
  }

  /** For valid text, when every attempt fails the server answers 500 with
      the error of the third attempt. */
  lemma AllAttemptsFail<J>(text: string, replies: seq<AiReply>, parse: Parser<J>)
    requires |replies| == MaxAttempts
    requires ValidateResumeContent(text).0
    requires forall k :: 0 <= k < MaxAttempts ==> Outcomes(replies, parse)[k].Failure?
    ensures AnalyzeWithAi(text, replies, parse) == Failure(RetriesExhausted(Outcomes(replies, parse)[2].error))
    ensures AttemptsMade(text, replies, parse) == MaxAttempts
  {
  }

  /** Replies after the first good one are never looked at. */
  lemma LaterRepliesIgnored<J>(text: string, replies: seq<AiReply>, other: seq<AiReply>, parse: Parser<J>, i: nat)
    requires |replies| == MaxAttempts && |other| == MaxAttempts
    requires i < MaxAttempts && Outcomes(replies, parse)[i].Success?
    requires replies[..i + 1] == other[..i + 1]
    ensures AnalyzeWithAi(text, replies, parse) == AnalyzeWithAi(text, other, parse)
  {
    SharedPrefixSameRetry(replies, other, parse, i);
  }

  /** Replies that agree up to a good one give runs that end the same way. */
  lemma SharedPrefixSameRetry<J>(replies: seq<AiReply>, other: seq<AiReply>, parse: Parser<J>, i: nat)
    requires |replies| == MaxAttempts && |other| == MaxAttempts
    requires i < MaxAttempts && Outcomes(replies, parse)[i].Success?
    requires replies[..i + 1] == other[..i + 1]
    ensures Retry(Outcomes(replies, parse)) == Retry(Outcomes(other, parse))
  {
    var os, ot := Outcomes(replies, parse), Outcomes(other, parse);
    forall k | 0 <= k <= i ensures os[k] == ot[k] {
      assert replies[..i + 1][k] == other[..i + 1][k];
      OutcomeAt(replies, parse, k);
      OutcomeAt(other, parse, k);
    }
    assert os[..i + 1] == ot[..i + 1];
    RetryDecidedBy(os, ot, i);
  }

  /** A run whose outcomes agree up to a success ends the same way. */
  lemma {:induction false} RetryDecidedBy<J, E>(a: seq<Result<J, E>>, b: seq<Result<J, E>>, i: nat)
    requires i < |a| && i < |b| && a[i].Success? && a[..i + 1] == b[..i + 1]
    ensures Retry(a) == Retry(b)
  {
    assert a[0] == a[..i + 1][0] && b[0] == b[..i + 1][0];
    if a[0].Failure? {
      assert a[1..][..i] == a[..i + 1][1..] && b[1..][..i] == b[..i + 1][1..];
      RetryDecidedBy(a[1..], b[1..], i - 1);
    }
  }

  /** A reply whose stripped content is JSON makes its attempt succeed with
      the parsed value; a reply without content never does. */
  lemma AttemptOutcomes<J>(reply: AiReply, parse: Parser<J>)
    ensures Attempt(reply, parse).Success? ==> reply.Content?
    ensures reply.Content? && parse(PyStrip(PyStrip(reply.text))).Success? ==>
      Attempt(reply, parse) == Success(parse(PyStrip(PyStrip(reply.text))).value)
    ensures reply.Content? ==>
      (Attempt(reply, parse).Failure? <==> Extracted(PyStrip(reply.text), parse).Failure?)
  {
  }
}
