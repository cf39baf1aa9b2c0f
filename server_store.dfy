/** The routes as they run against the database: a store whose two
    collections are updated in place, one method per route. Each method is
    proved to make the step its route's function describes, and to keep the
    store's invariant. */
module ServerStore {
  import opened Wrappers
  import opened Strings
  import opened JsonExtract
  import opened AiAnalysis
  import opened Collections
  import opened Server
  import opened ServerProperties

  /** The `users` and `analyses` collections. */
  class Store<J> {
    var users: seq<User>
    var analyses: seq<Analysis<J>>

    function Contents(): Db<J>
      reads this
    {
      Db(users, analyses)
    }

    /** An empty database. */
    constructor ()
      ensures Contents() == Db([], [])
      ensures Valid(Contents())
    {
      users := [];
      analyses := [];
    }

    /** `POST /auth/magic-link`. */
    method MagicLink(email: string, token: string, newId: string, now: int) returns (reply: MagicLinkSent)
      modifies this
      ensures (Contents(), reply) == MagicLinkStep(old(Contents()), email, token, newId, now)
      ensures old(Valid(Contents()) && UnusedId(users, newId) && UnusedToken(users, token)) ==> Valid(Contents())
    {
      if Valid(Contents()) && UnusedId(users, newId) && UnusedToken(users, token) {
        MagicLinkKeepsValid(Contents(), email, token, newId, now);
      }
      var expiry := now + MagicLinkExpiry;
      var found := FindFirst(users, WithEmail(email));
      if found.None? {
        users := users + [User(newId, email, 0, Some(token), Some(expiry), now)];
      } else {
        var i := found.value;
        users := users[i := users[i].(token := Some(token), expiry := Some(expiry))];
      }
      reply := MagicLinkSent(token, email);
    }

    /** `POST /auth/verify`. */
    method Verify(token: string, now: int) returns (r: Result<Session, ApiError>)
      modifies this
      ensures (Contents(), r) == VerifyStep(old(Contents()), token, now)
      ensures old(Valid(Contents())) ==> Valid(Contents())
    {
      if Valid(Contents()) {
        VerifyKeepsValid(Contents(), token, now);
      }
      var found := FindFirst(users, HoldsToken(token));
      if found.None? {
        return Failure(InvalidToken);
      }
      var u := users[found.value];
      if u.expiry.Some? && now > u.expiry.value {
        return Failure(TokenExpired);
      }
      var j := FindFirst(users, WithId(u.id));
      if j.Some? {
        users := users[j.value := users[j.value].(token := None, expiry := None)];
      }
      r := Success(Session(u.id, u.email, u.usageCount, FreeTierLimit));
    }

    /** The checks both analyze routes make first. */
    method CheckAccess(userId: string) returns (g: Result<User, ApiError>)
      ensures g == Gate(Contents(), userId)
    {
      if userId == "" {
        return Failure(UserIdRequired);
      }
      var found := FindFirst(users, WithId(userId));
      if found.None? {
        return Failure(UserNotFound);
      }
      var u := users[found.value];
      if u.usageCount >= FreeTierLimit {
        return Failure(UsageLimitReached);
      }
      g := Success(u);
    }

    /** Inserting the analysis and counting the use. */
    method Record(userId: string, user: User, text: string, ai: Result<J, AiError>,
                  isObject: J -> bool, failed: ApiError, newId: string, now: int)
        returns (r: Result<Created<J>, ApiError>)
      modifies this
      ensures (Contents(), r) == Commit(old(Contents()), userId, user, text, ai, isObject, failed, newId, now)
      ensures old(Valid(Contents()) && Gate(Contents(), userId) == Success(user)) ==> Valid(Contents())
    {
      if Valid(Contents()) && Gate(Contents(), userId) == Success(user) {
        CommitKeepsValid(Contents(), userId, user, text, ai, isObject, failed, newId, now);
      }
      if ai.Failure? {
        return Failure(AiFailed(ai.error));
      }
      if !isObject(ai.value) {
        return Failure(failed);
      }
      analyses := analyses + [Analysis(newId, userId, Prefix(text, StoredTextChars), ai.value, now)];
      var found := FindFirst(users, WithId(userId));
      if found.Some? {
        var i := found.value;
        users := users[i := users[i].(usageCount := users[i].usageCount + 1)];
      }
      r := Success(Created(newId, ai.value, FreeTierLimit - user.usageCount - 1));
    }

    /** `POST /analyze/text`. */
    method AnalyzeText(userId: string, text: string, replies: seq<AiReply>, parse: Parser<J>, isObject: J -> bool, newId: string, now: int)
        returns (r: Result<Created<J>, ApiError>)
      requires |replies| == MaxAttempts
      modifies this
      ensures (Contents(), r) == AnalyzeTextStep(old(Contents()), userId, text, replies, parse, isObject, newId, now)
      ensures old(Valid(Contents())) ==> Valid(Contents())
    {
      if Valid(Contents()) {
        AnalyzeTextKeepsValid(Contents(), userId, text, replies, parse, isObject, newId, now);
      }
      var g := CheckAccess(userId);
      if g.Failure? {
        return Failure(g.error);
      }
      var ai, _ := AnalyzeResumeWithAi(text, replies, parse);
      r := Record(userId, g.value, text, ai, isObject, AnalysisFailed, newId, now);
    }

    /** `POST /analyze/pdf`. */
    method AnalyzePdf(userId: string, pdf: Option<seq<Option<string>>>, replies: seq<AiReply>, parse: Parser<J>, isObject: J -> bool, newId: string, now: int)
        returns (r: Result<Created<J>, ApiError>)
      requires |replies| == MaxAttempts
      modifies this
      ensures (Contents(), r) == AnalyzePdfStep(old(Contents()), userId, pdf, replies, parse, isObject, newId, now)
      ensures old(Valid(Contents())) ==> Valid(Contents())
    {
      if Valid(Contents()) {
        AnalyzePdfKeepsValid(Contents(), userId, pdf, replies, parse, isObject, newId, now);
      }
      var g := CheckAccess(userId);
      if g.Failure? {
        return Failure(g.error);
      }
      if pdf.None? {
        return Failure(PdfAnalysisFailed);
      }
      var text := JoinPages(pdf.value);
      if PyStrip(text) == "" {
        return Failure(NoPdfText);
      }
      var ai, _ := AnalyzeResumeWithAi(text, replies, parse);
      r := Record(userId, g.value, text, ai, isObject, PdfAnalysisFailed, newId, now);
    }

    /** `GET /user/{user_id}`. */
    method FetchUser(userId: string) returns (r: Result<UserInfo, ApiError>)
      ensures r == GetUser(Contents(), userId)
    {
      var found := FindFirst(users, WithId(userId));
      if found.None? {
        return Failure(UserNotFound);
      }
      var u := users[found.value];
      r := Success(UserInfo(u.id, u.email, u.usageCount, FreeTierLimit));
    }

    /** `GET /analyses/{user_id}`. */
    method FetchAnalyses(userId: string) returns (r: Result<seq<Analysis<J>>, ApiError>)
      ensures r == GetAnalyses(Contents(), userId)
    {
      var found := FindFirst(users, WithId(userId));
      if found.None? {
        return Failure(UserNotFound);
      }
      var list := SelectWhere(analyses, OwnedBy(userId));
      r := Success(list);
    }
  }

  /** The text of the pages, joined in order. */
  method JoinPages(pages: seq<Option<string>>) returns (text: string)
    ensures text == PagesText(pages)
  {
    text := "";
    var i := 0;
    while i < |pages|
      invariant 0 <= i <= |pages|
      invariant text == PagesText(pages[..i])
    {
      PagesTextAppend(pages[..i], pages[i]);
      assert pages[..i + 1] == pages[..i] + [pages[i]];
      match pages[i] {
        case None =>
        case Some(t) => text := text + t;
      }
      i := i + 1;
    }
    assert pages[..i] == pages;
  }

  /** Joining one more page appends its text. */
  lemma {:induction false} PagesTextAppend(pages: seq<Option<string>>, page: Option<string>)
    ensures PagesText(pages + [page]) == PagesText(pages) + (match page case None => "" case Some(t) => t)
  {
    if pages == [] {
      assert pages + [page] == [page];
    } else {
      assert (pages + [page])[1..] == pages[1..] + [page];
      PagesTextAppend(pages[1..], page);
    }
  }
}
