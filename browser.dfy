/** What the React pages share: the browser's `localStorage`, the routes,
    toasts, and the shape of an axios outcome. */
module Browser {
  import opened Wrappers
  import opened Server

  /** `localStorage`: string keys to string values. */
  class Storage {
    var items: map<string, string>

    constructor (initial: map<string, string>)
      ensures items == initial
    {
      items := initial;
    }

    /** `localStorage.getItem(key)`, `None` for `null`. */
    function GetItem(key: string): Option<string>
      reads this
    {
      if key in items then Some(items[key]) else None
    }

    /** `localStorage.setItem(key, value)`. */
    method SetItem(key: string, value: string)
      modifies this
      ensures items == old(items)[key := value]
    {
      items := items[key := value];
    }

    /** `localStorage.clear()`. */
    method Clear()
      modifies this
      ensures items == map[]
    {
      items := map[];
    }
  }

  /** The routes of the single-page app. */
  datatype Path = Home | AnalyzeRoute | ResultsRoute(analysisId: string) | DashboardRoute | PricingRoute

  /** `toast.success` or `toast.error`. */
  datatype ToastKind = Positive | Negative

  /** The last toast a page raised. */
  datatype Toast = Toast(kind: ToastKind, message: string)

  /** `error.response` of a failed axios call: its status and, when the body
      has one, its `detail`. */
  datatype ErrorResponse = ErrorResponse(status: int, detail: Option<string>)

  /** An axios call: the response body, or the error, whose `response` is
      absent when no HTTP answer arrived. */
  datatype Reply<T> = Ok(body: T) | Failed(response: Option<ErrorResponse>)

  /** `error.response?.data?.detail || fallback`: the server's detail when
      it is a non-empty string. */
  function DetailOr(response: Option<ErrorResponse>, fallback: string): (r: string)
    ensures r == fallback || (response.Some? && response.value.detail == Some(r) && r != "")
    ensures response.None? || response.value.detail.None? ==> r == fallback
    ensures response.Some? && response.value.detail.Some? && response.value.detail.value != "" ==>
      r == response.value.detail.value
  {
    if response.Some? && response.value.detail.Some? && response.value.detail.value != "" then
      response.value.detail.value
    else
      fallback
  }

  /** How the backend's answer reaches the page: the JSON body, or an
      `HTTPException` as a status with its detail. */
  function Delivered<T>(r: Result<T, ApiError>): (reply: Reply<T>)
    ensures r.Success? <==> reply.Ok?
    ensures r.Failure? ==> reply.response == Some(ErrorResponse(r.error.Status(), Some(r.error.Detail())))
  {
    match r
    case Success(body) => Ok(body)
    case Failure(e) => Failed(Some(ErrorResponse(e.Status(), Some(e.Detail()))))
  }

  /** Every refusal of the backend other than the validator's carries a
      non-empty detail. */
  lemma DetailNotEmpty(e: ApiError)
    requires !(e.AiFailed? && e.cause.Rejected?)
    ensures e.Detail() != ""
  {
    if e.AiFailed? {
      assert e.Detail()[0] == 'A';
    }
  }

  /** A page shows the backend's detail for a refusal that has one, never
      its own fallback text. */
  lemma RefusalShown<T>(e: ApiError, fallback: string)
    requires e.Detail() != ""
    ensures DetailOr(Delivered<T>(Failure(e)).response, fallback) == e.Detail()
  {
  }

  /** The logged-in user as the pages hold it. */
  datatype SessionUser = SessionUser(id: string, email: string, usageCount: int)
}
