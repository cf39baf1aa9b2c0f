/** The FastAPI backend's state and routes. The two collections, `users`
    and `analyses`, form a `Db`; each route is a step from one `Db` to the
    next together with its JSON reply or its `HTTPException`. Fresh
    identifiers (`uuid4`), magic-link tokens (`token_urlsafe`), the clock,
    the PDF reader's output and the model's replies are parameters. */
module Server {
  import opened Wrappers
  import opened Strings
  import opened JsonExtract
  import opened AiAnalysis
  import opened Collections

  const FreeTierLimit: nat := 3
  /** Seconds a magic-link token stays valid. */
  const MagicLinkExpiry := 3600
  /** Characters of the resume text stored with an analysis. */
  const StoredTextChars := 500

  /** A `users` document; times are seconds on the server's clock. */
  datatype User = User(
    id: string,
    email: string,
    usageCount: nat,
    token: Option<string>,
    expiry: Option<int>,
    createdAt: int)

  /** An `analyses` document. */
  datatype Analysis<J> = Analysis(
    id: string,
    userId: string,
    resumeText: string,
    result: J,
    createdAt: int)

  /** Both collections, each in insertion order. */
  datatype Db<J> = Db(users: seq<User>, analyses: seq<Analysis<J>>)

  /** The `HTTPException`s the routes raise. */
  datatype ApiError =
    | UserIdRequired
    | UserNotFound
    | UsageLimitReached
    | InvalidToken
    | TokenExpired
    | NoPdfText
    | AnalysisFailed
    | PdfAnalysisFailed
    | AiFailed(cause: AiError)
  {
    function Status(): int {
      match this
      case UserIdRequired => 400
      case UserNotFound => 404
      case UsageLimitReached => 403
      case InvalidToken => 401
      case TokenExpired => 401
      case NoPdfText => 400
      case AnalysisFailed => 500
      case PdfAnalysisFailed => 500
      case AiFailed(cause) => cause.Status()
    }

    function Detail(): string {
      match this
      case UserIdRequired => "user_id is required"
      case UserNotFound => "User not found"
      case UsageLimitReached => "Usage limit reached"
      case InvalidToken => "Invalid token"
      case TokenExpired => "Token expired"
      case NoPdfText => "Could not extract text from PDF"
      case AnalysisFailed => "Analysis failed"
      case PdfAnalysisFailed => "PDF analysis failed"
      case AiFailed(cause) => cause.Detail()
    }
  }

  /** The reply of `/auth/magic-link` (its `message` is a constant). */
  datatype MagicLinkSent = MagicLinkSent(token: string, email: string)

  /** The reply of `/auth/verify`. */
  datatype Session = Session(userId: string, email: string, usageCount: nat, usageLimit: nat)

  /** The reply of the two analyze routes. */
  datatype Created<J> = Created(analysisId: string, analysis: J, remainingUses: int)

  /** The reply of `/user/{user_id}`. */
  datatype UserInfo = UserInfo(id: string, email: string, usageCount: nat, usageLimit: nat)

  // Query filters and updates, named so that every use denotes the same one.

  function WithId(id: string): User -> bool { (u: User) => u.id == id }
  function WithEmail(email: string): User -> bool { (u: User) => u.email == email }
  function HoldsToken(token: string): User -> bool { (u: User) => u.token == Some(token) }
  function OwnedBy<J>(userId: string): Analysis<J> -> bool { (a: Analysis<J>) => a.userId == userId }

  function IssueToken(token: string, expiry: int): User -> User {
    (u: User) => u.(token := Some(token), expiry := Some(expiry))
  }
  function ClearToken(): User -> User { (u: User) => u.(token := None, expiry := None) }
  function CountUse(): User -> User { (u: User) => u.(usageCount := u.usageCount + 1) }

  /** Python's `s[:n]`. */
  function Prefix(s: string, n: nat): (r: string)
    ensures |r| <= n && r <= s
    ensures |s| <= n ==> r == s
  {
    if |s| <= n then s else s[..n]
  }

  // ---------------------------------------------------------------------
  // Routes
  // ---------------------------------------------------------------------

  /** `POST /auth/magic-link`: a new user with the token, or the known
      user's token and expiry replaced. */
  function MagicLinkStep<J>(db: Db<J>, email: string, token: string, newId: string, now: int): (Db<J>, MagicLinkSent) {
    var expiry := now + MagicLinkExpiry;
    var users :=
      if FirstWhere(db.users, WithEmail(email)).None? then
        db.users + [User(newId, email, 0, Some(token), Some(expiry), now)]
      else
        UpdateFirst(db.users, WithEmail(email), IssueToken(token, expiry));
    (db.(users := users), MagicLinkSent(token, email))
  }

  /** `POST /auth/verify`: the user holding the token, if the token has not
      expired, with the token consumed. An expired token is left in place. */
  function VerifyStep<J>(db: Db<J>, token: string, now: int): (Db<J>, Result<Session, ApiError>) {
    match FindOne(db.users, HoldsToken(token))
    case None => (db, Failure(InvalidToken))
    case Some(u) =>
      if u.expiry.Some? && now > u.expiry.value then (db, Failure(TokenExpired))
      else
        (db.(users := UpdateFirst(db.users, WithId(u.id), ClearToken())),
         Success(Session(u.id, u.email, u.usageCount, FreeTierLimit)))
  }

  /** The checks both analyze routes make before any work. */
  function Gate<J>(db: Db<J>, userId: string): Result<User, ApiError> {
    if userId == "" then Failure(UserIdRequired)
    else
      match FindOne(db.users, WithId(userId))
      case None => Failure(UserNotFound)
      case Some(u) => if u.usageCount >= FreeTierLimit then Failure(UsageLimitReached) else Success(u)
  }

  /** Storing an analysis and counting the use, or passing on the AI step's
      error with nothing stored. `analysis_result: dict` refuses a JSON value
      that is not an object (`isObject`) before anything is inserted; the
      route's `except Exception` turns that into its own 500, `failed`. */
  function Commit<J>(db: Db<J>, userId: string, user: User, text: string, ai: Result<J, AiError>,
                     isObject: J -> bool, failed: ApiError, newId: string, now: int)
    : (Db<J>, Result<Created<J>, ApiError>)
  {
    match ai
    case Failure(e) => (db, Failure(AiFailed(e)))
    case Success(v) =>
      if !isObject(v) then (db, Failure(failed))
      else
        (Db(UpdateFirst(db.users, WithId(userId), CountUse()),
            db.analyses + [Analysis(newId, userId, Prefix(text, StoredTextChars), v, now)]),
         Success(Created(newId, v, FreeTierLimit - user.usageCount - 1)))
  }

  /** `POST /analyze/text`. */
  function AnalyzeTextStep<J>(db: Db<J>, userId: string, text: string, replies: seq<AiReply>, parse: Parser<J>, isObject: J -> bool, newId: string, now: int)
    : (Db<J>, Result<Created<J>, ApiError>)
    requires |replies| == MaxAttempts
  {
    match Gate(db, userId)
    case Failure(e) => (db, Failure(e))
    case Success(u) => Commit(db, userId, u, text, AnalyzeWithAi(text, replies, parse), isObject, AnalysisFailed, newId, now)
  }

  /** `"".join(page.extract_text() or "" for page in pdf.pages)`. */
  function PagesText(pages: seq<Option<string>>): string {
    if pages == [] then ""
    else (match pages[0] case None => "" case Some(t) => t) + PagesText(pages[1..])
  }

  /** `POST /analyze/pdf`; `pdf` is the text of each page, or `None` when
      the upload cannot be read as a PDF. */
  function AnalyzePdfStep<J>(db: Db<J>, userId: string, pdf: Option<seq<Option<string>>>, replies: seq<AiReply>, parse: Parser<J>, isObject: J -> bool, newId: string, now: int)
    : (Db<J>, Result<Created<J>, ApiError>)
    requires |replies| == MaxAttempts
  {
    match Gate(db, userId)
    case Failure(e) => (db, Failure(e))
    case Success(u) =>
      match pdf
      case None => (db, Failure(PdfAnalysisFailed))
      case Some(pages) =>
        var text := PagesText(pages);
        if PyStrip(text) == "" then (db, Failure(NoPdfText))
        else Commit(db, userId, u, text, AnalyzeWithAi(text, replies, parse), isObject, PdfAnalysisFailed, newId, now)
  }

  /** `GET /user/{user_id}`. */
  function GetUser<J>(db: Db<J>, userId: string): Result<UserInfo, ApiError> {
    match FindOne(db.users, WithId(userId))
    case None => Failure(UserNotFound)
    case Some(u) => Success(UserInfo(u.id, u.email, u.usageCount, FreeTierLimit))
  }

  /** `GET /analyses/{user_id}`: the user's analyses, oldest first. */
  function GetAnalyses<J>(db: Db<J>, userId: string): Result<seq<Analysis<J>>, ApiError> {
    match FindOne(db.users, WithId(userId))
    case None => Failure(UserNotFound)
    case Some(_) => Success(Filter(db.analyses, OwnedBy(userId)))
  }

  // ---------------------------------------------------------------------
  // The store's invariant
  // ---------------------------------------------------------------------

  predicate UniqueIds(users: seq<User>) {
    forall i, j :: 0 <= i < j < |users| ==> users[i].id != users[j].id
  }

  predicate UniqueEmails(users: seq<User>) {
    forall i, j :: 0 <= i < j < |users| ==> users[i].email != users[j].email
  }

  /** No two users hold the same outstanding token. */
  predicate UniqueTokens(users: seq<User>) {
    forall i, j :: 0 <= i < j < |users| && users[i].token.Some? ==> users[i].token != users[j].token
  }

  /** Every user's count of stored analyses is their usage count, which
      never passes the free tier. */
  predicate UsageMatchesHistory<J>(db: Db<J>) {
    forall i :: 0 <= i < |db.users| ==>
      db.users[i].usageCount <= FreeTierLimit
      && |Filter(db.analyses, OwnedBy(db.users[i].id))| == db.users[i].usageCount
  }

  /** Every analysis belongs to a user. */
  predicate Owned<J>(db: Db<J>) {
    forall k :: 0 <= k < |db.analyses| ==> FirstWhere(db.users, WithId(db.analyses[k].userId)).Some?
  }

  predicate Valid<J>(db: Db<J>) {
    UniqueIds(db.users) && UniqueEmails(db.users) && UniqueTokens(db.users)
    && UsageMatchesHistory(db) && Owned(db)
  }

  /** An identifier no user has. */
  predicate UnusedId(users: seq<User>, id: string) {
    forall i :: 0 <= i < |users| ==> users[i].id != id
  }

  /** A token no user holds. */
  predicate UnusedToken(users: seq<User>, token: string) {
    forall i :: 0 <= i < |users| ==> users[i].token != Some(token)
  }
}
