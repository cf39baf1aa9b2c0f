/** What the backend's routes guarantee: the store's invariant is kept by
    every route, a magic link can be verified once within the hour, a user
    never gets more analyses than the free tier allows, and every rejected
    request leaves both collections as they were. */
module ServerProperties {
  import opened Wrappers
  import opened Strings
  import opened JsonExtract
  import opened AiAnalysis
  import opened Collections
  import opened Server

  // ---------------------------------------------------------------------
  // Keeping the invariant
  // ---------------------------------------------------------------------

  /** Two user collections that agree on everything but the tokens. */
  predicate SameAccounts(a: seq<User>, b: seq<User>) {
    && |a| == |b|
    && forall k :: 0 <= k < |a| ==>
         a[k].id == b[k].id && a[k].email == b[k].email && a[k].usageCount == b[k].usageCount
  }

  /** Changing only tokens keeps the invariant, if the tokens stay unique. */
  lemma SameAccountsKeepValid<J>(db: Db<J>, users: seq<User>)
    requires Valid(db) && SameAccounts(db.users, users) && UniqueTokens(users)
    ensures Valid(db.(users := users))
  {
    forall k | 0 <= k < |db.analyses|
      ensures FirstWhere(users, WithId(db.analyses[k].userId)).Some?
    {
      var x := db.analyses[k].userId;
      FirstWhereAgree(users, WithId(x), db.users, WithId(x));
    }
  }

  /** Clearing one user's token keeps the tokens unique. */
  lemma ClearingKeepsTokensUnique(users: seq<User>, i: nat)
    requires UniqueTokens(users) && i < |users|
    ensures UniqueTokens(users[i := users[i].(token := None, expiry := None)])
  {
  }

  /** Giving one user an unused token keeps the tokens unique. */
  lemma IssuingKeepsTokensUnique(users: seq<User>, i: nat, token: string, expiry: int)
    requires UniqueTokens(users) && UnusedToken(users, token) && i < |users|
    ensures UniqueTokens(users[i := users[i].(token := Some(token), expiry := Some(expiry))])
  {
  }

  /** No analysis carries an identifier no user has. */
  lemma NoHistoryForUnusedId<J>(db: Db<J>, id: string)
    requires Owned(db) && UnusedId(db.users, id)
    ensures Filter(db.analyses, OwnedBy(id)) == []
  {
    forall k | 0 <= k < |db.analyses| ensures db.analyses[k].userId != id {
      var i := FirstWhere(db.users, WithId(db.analyses[k].userId)).value;
      assert db.users[i].id == db.analyses[k].userId;
    }
    FilterNone(db.analyses, OwnedBy(id));
  }

  /** A magic link keeps the invariant, given a fresh user id and an unused
      token. */
  lemma MagicLinkKeepsValid<J>(db: Db<J>, email: string, token: string, newId: string, now: int)
    requires Valid(db) && UnusedId(db.users, newId) && UnusedToken(db.users, token)
    ensures Valid(MagicLinkStep(db, email, token, newId, now).0)
  {
    if FirstWhere(db.users, WithEmail(email)).None? {
      NewUserKeepsValid(db, User(newId, email, 0, Some(token), Some(now + MagicLinkExpiry), now));
    } else {
      var i := FirstWhere(db.users, WithEmail(email)).value;
      var users' := MagicLinkStep(db, email, token, newId, now).0.users;
      IssuingKeepsTokensUnique(db.users, i, token, now + MagicLinkExpiry);
      SameAccountsKeepValid(db, users');
    }
  }

  /** Adding a user with a new id, a new email, an unused token and no uses
      keeps the invariant. */
  lemma NewUserKeepsValid<J>(db: Db<J>, u: User)
    requires Valid(db) && UnusedId(db.users, u.id) && FirstWhere(db.users, WithEmail(u.email)).None?
    requires u.usageCount == 0 && (u.token.Some? ==> UnusedToken(db.users, u.token.value))
    ensures Valid(db.(users := db.users + [u]))
  {
    var db' := db.(users := db.users + [u]);
    forall k | 0 <= k < |db.analyses|
      ensures FirstWhere(db'.users, WithId(db.analyses[k].userId)).Some?
    {
      FirstWhereAppend(db.users, u, WithId(db.analyses[k].userId));
    }
    NewUserHistory(db, u);
  }

  /** A new user without uses has no history. */
  lemma NewUserHistory<J>(db: Db<J>, u: User)
    requires UsageMatchesHistory(db) && Owned(db) && UnusedId(db.users, u.id) && u.usageCount == 0
    ensures UsageMatchesHistory(db.(users := db.users + [u]))
  {
    var db' := db.(users := db.users + [u]);
    NoHistoryForUnusedId(db, u.id);
    forall i | 0 <= i < |db'.users|
      ensures db'.users[i].usageCount <= FreeTierLimit
      ensures |Filter(db'.analyses, OwnedBy(db'.users[i].id))| == db'.users[i].usageCount
    {
      if i < |db.users| {
        assert db'.users[i] == db.users[i];
      }
    }
  }

  /** Verifying keeps the invariant. */
  lemma VerifyKeepsValid<J>(db: Db<J>, token: string, now: int)
    requires Valid(db)
    ensures Valid(VerifyStep(db, token, now).0)
  {
    var db' := VerifyStep(db, token, now).0;
    if db' != db {
      var u := FindOne(db.users, HoldsToken(token)).value;
      var i := FirstWhere(db.users, WithId(u.id)).value;
      ClearingKeepsTokensUnique(db.users, i);
      SameAccountsKeepValid(db, db'.users);
    }
  }

  /** Storing an analysis for a user the gate let through keeps the
      invariant: that user's usage and history both grow by one. */
  lemma CommitKeepsValid<J>(db: Db<J>, userId: string, user: User, text: string, ai: Result<J, AiError>,
                            isObject: J -> bool, failed: ApiError, newId: string, now: int)
    requires Valid(db) && Gate(db, userId) == Success(user)
    ensures Valid(Commit(db, userId, user, text, ai, isObject, failed, newId, now).0)
  {
    if ai.Success? && isObject(ai.value) {
      var db' := Commit(db, userId, user, text, ai, isObject, failed, newId, now).0;
      var i := FirstWhere(db.users, WithId(userId)).value;
      var a := Analysis(newId, userId, Prefix(text, StoredTextChars), ai.value, now);
      assert db'.users == db.users[i := db.users[i].(usageCount := db.users[i].usageCount + 1)];
      assert db'.analyses == db.analyses + [a];
      CountedUseKeepsHistory(db, i, a);
      CountedUseKeepsOwners(db, i, a);
      CountedUseKeepsUnique(db.users, i);
    }
  }

  /** Counting a use changes no identifier, email or token. */
  lemma CountedUseKeepsUnique(users: seq<User>, i: nat)
    requires UniqueIds(users) && UniqueEmails(users) && UniqueTokens(users) && i < |users|
    ensures var users' := users[i := users[i].(usageCount := users[i].usageCount + 1)];
      UniqueIds(users') && UniqueEmails(users') && UniqueTokens(users')
  {
    var users' := users[i := users[i].(usageCount := users[i].usageCount + 1)];
    assert forall k :: 0 <= k < |users| ==>
      users'[k].id == users[k].id && users'[k].email == users[k].email && users'[k].token == users[k].token;
  }

  /** One more analysis of user `i`, with that user's use counted, keeps
      every user's history equal to their usage. */
  lemma CountedUseKeepsHistory<J>(db: Db<J>, i: nat, a: Analysis<J>)
    requires UsageMatchesHistory(db) && UniqueIds(db.users) && i < |db.users|
    requires db.users[i].id == a.userId && db.users[i].usageCount < FreeTierLimit
    ensures UsageMatchesHistory(Db(db.users[i := db.users[i].(usageCount := db.users[i].usageCount + 1)], db.analyses + [a]))
  {
    var db' := Db(db.users[i := db.users[i].(usageCount := db.users[i].usageCount + 1)], db.analyses + [a]);
    forall k | 0 <= k < |db'.users|
      ensures db'.users[k].usageCount <= FreeTierLimit
      ensures |Filter(db'.analyses, OwnedBy(db'.users[k].id))| == db'.users[k].usageCount
    {
      assert db'.users[k].id == db.users[k].id;
      FilterAppend(db.analyses, a, OwnedBy(db.users[k].id));
    }
  }

  /** The new analysis belongs to an existing user, and counting a use
      keeps every owner in place. */
  lemma CountedUseKeepsOwners<J>(db: Db<J>, i: nat, a: Analysis<J>)
    requires Owned(db) && i < |db.users| && db.users[i].id == a.userId
    ensures Owned(Db(db.users[i := db.users[i].(usageCount := db.users[i].usageCount + 1)], db.analyses + [a]))
  {
    var db' := Db(db.users[i := db.users[i].(usageCount := db.users[i].usageCount + 1)], db.analyses + [a]);
    assert forall k :: 0 <= k < |db.users| ==> db'.users[k].id == db.users[k].id;
    forall k | 0 <= k < |db'.analyses|
      ensures FirstWhere(db'.users, WithId(db'.analyses[k].userId)).Some?
    {
      var x := db'.analyses[k].userId;
      SameIdsSameLookup(db, db', x);
      if k == |db.analyses| {
        assert db'.analyses[k] == a;
        assert WithId(x)(db.users[i]);
      }
    }
  }

  /** `POST /analyze/text` keeps the invariant. */
  lemma AnalyzeTextKeepsValid<J>(db: Db<J>, userId: string, text: string, replies: seq<AiReply>, parse: Parser<J>, isObject: J -> bool, newId: string, now: int)
    requires |replies| == MaxAttempts && Valid(db)
    ensures Valid(AnalyzeTextStep(db, userId, text, replies, parse, isObject, newId, now).0)
  {
    match Gate(db, userId) {
      case Failure(_) =>
      case Success(u) => CommitKeepsValid(db, userId, u, text, AnalyzeWithAi(text, replies, parse), isObject, AnalysisFailed, newId, now);
    }
  }

  /** `POST /analyze/pdf` keeps the invariant. */
  lemma AnalyzePdfKeepsValid<J>(db: Db<J>, userId: string, pdf: Option<seq<Option<string>>>, replies: seq<AiReply>, parse: Parser<J>, isObject: J -> bool, newId: string, now: int)
    requires |replies| == MaxAttempts && Valid(db)
    ensures Valid(AnalyzePdfStep(db, userId, pdf, replies, parse, isObject, newId, now).0)
  {
    match Gate(db, userId) {
      case Failure(_) =>
      case Success(u) =>
        if pdf.Some? && PyStrip(PagesText(pdf.value)) != "" {
          var text := PagesText(pdf.value);
          CommitKeepsValid(db, userId, u, text, AnalyzeWithAi(text, replies, parse), isObject, PdfAnalysisFailed, newId, now);
        }
    }
  }

  // ---------------------------------------------------------------------
  // Magic links and verification
  // ---------------------------------------------------------------------

  /** After a magic link the user with that email holds the new token,
      valid for an hour. An unknown email gets a new user with no uses and
      the fresh id; a known one keeps its id and its usage count. */
  lemma MagicLinkIssuesToken<J>(db: Db<J>, email: string, token: string, newId: string, now: int)
    ensures var (db', reply) := MagicLinkStep(db, email, token, newId, now);
      && reply == MagicLinkSent(token, email)
      && db'.analyses == db.analyses
      && FindOne(db'.users, WithEmail(email)).Some?
      && var u := FindOne(db'.users, WithEmail(email)).value;
         && u.token == Some(token) && u.expiry == Some(now + MagicLinkExpiry)
         && match FindOne(db.users, WithEmail(email))
            case None => u.id == newId && u.usageCount == 0 && |db'.users| == |db.users| + 1
            case Some(prior) => u.id == prior.id && u.usageCount == prior.usageCount && |db'.users| == |db.users|
    ensures var users' := MagicLinkStep(db, email, token, newId, now).0.users;
      match FirstWhere(db.users, WithEmail(email))
      case None => users' == db.users + [User(newId, email, 0, Some(token), Some(now + MagicLinkExpiry), now)]
      case Some(i) => users' == db.users[i := db.users[i].(token := Some(token), expiry := Some(now + MagicLinkExpiry))]
  {
    var users' := MagicLinkStep(db, email, token, newId, now).0.users;
    if FirstWhere(db.users, WithEmail(email)).None? {
      FirstWhereAppend(db.users, User(newId, email, 0, Some(token), Some(now + MagicLinkExpiry), now), WithEmail(email));
    } else {
      FirstWhereAgree(users', WithEmail(email), db.users, WithEmail(email));
    }
  }

  /** The only user holding a token just issued is the one it was issued
      to. */
  lemma IssuedTokenHolder<J>(db: Db<J>, email: string, token: string, newId: string, now: int)
    requires UnusedToken(db.users, token)
    ensures var users' := MagicLinkStep(db, email, token, newId, now).0.users;
      FindOne(users', HoldsToken(token)) == FindOne(users', WithEmail(email))
  {
    var users' := MagicLinkStep(db, email, token, newId, now).0.users;
    if FirstWhere(db.users, WithEmail(email)).None? {
      var u := User(newId, email, 0, Some(token), Some(now + MagicLinkExpiry), now);
      FirstWhereAppend(db.users, u, WithEmail(email));
      FirstWhereAppend(db.users, u, HoldsToken(token));
    } else {
      FirstWhereAgree(users', WithEmail(email), db.users, WithEmail(email));
    }
  }

  /** A token just issued verifies up to and including its expiry instant,
      and is refused as expired after it; the session is the email's
      account. */
  lemma MagicLinkThenVerify<J>(db: Db<J>, email: string, token: string, newId: string, now: int, later: int)
    requires UnusedToken(db.users, token)
    ensures var db' := MagicLinkStep(db, email, token, newId, now).0;
      var r := VerifyStep(db', token, later).1;
      && FindOne(db'.users, WithEmail(email)).Some?
      && (r.Success? <==> later <= now + MagicLinkExpiry)
      && (r.Failure? ==> r.error == TokenExpired)
      && (r.Success? ==>
            var u := FindOne(db'.users, WithEmail(email)).value;
            r.value == Session(u.id, email, u.usageCount, FreeTierLimit))
  {
    MagicLinkIssuesToken(db, email, token, newId, now);
    IssuedTokenHolder(db, email, token, newId, now);
  }

  /** A second magic link for the same email makes the first token invalid. */
  lemma ReissueRevokesEarlierToken<J>(db: Db<J>, email: string, earlier: string, token: string, newId: string, now: int, later: int)
    requires UniqueTokens(db.users) && earlier != token
    requires FindOne(db.users, WithEmail(email)).Some? && FindOne(db.users, WithEmail(email)).value.token == Some(earlier)
    ensures VerifyStep(MagicLinkStep(db, email, token, newId, now).0, earlier, later).1 == Failure(InvalidToken)
  {
    var users' := MagicLinkStep(db, email, token, newId, now).0.users;
    var i := FirstWhere(db.users, WithEmail(email)).value;
    assert forall k :: 0 <= k < |users'| ==> users'[k].token != Some(earlier) by {
      forall k | 0 <= k < |users'| ensures users'[k].token != Some(earlier) {
        if k != i {
          assert users'[k] == db.users[k];
        }
      }
    }
  }

  /** The outcomes of `/auth/verify`: an unknown token is invalid, the
      holder's token is expired strictly after its expiry, a refusal changes
      nothing, and a success returns the holder's account with the token
      consumed. When ids are unique, the holder's token and expiry are the
      only fields that change. */
  lemma VerifyOutcomes<J>(db: Db<J>, token: string, now: int)
    ensures var (db', r) := VerifyStep(db, token, now);
      && (r == Failure(InvalidToken) <==> UnusedToken(db.users, token))
      && (r.Failure? ==> db' == db)
      && (!UnusedToken(db.users, token) ==>
            var u := FindOne(db.users, HoldsToken(token)).value;
            && (r == Failure(TokenExpired) <==> u.expiry.Some? && now > u.expiry.value)
            && (r.Success? ==>
                  && r.value == Session(u.id, u.email, u.usageCount, FreeTierLimit)
                  && SameAccounts(db.users, db'.users)
                  && db'.analyses == db.analyses
                  && (UniqueIds(db.users) ==>
                        var h := FirstWhere(db.users, HoldsToken(token)).value;
                        db'.users == db.users[h := db.users[h].(token := None, expiry := None)])))
  {
    var r := VerifyStep(db, token, now).1;
    if r.Success? {
      var h := FirstWhere(db.users, HoldsToken(token)).value;
      var u := db.users[h];
      var users' := VerifyStep(db, token, now).0.users;
      assert users' == UpdateFirst(db.users, WithId(u.id), ClearToken());
      if UniqueIds(db.users) {
        assert FirstWhere(db.users, WithId(u.id)).value == h;
      }
    }
  }

  /** A magic-link token can be used once. */
  lemma VerifySingleUse<J>(db: Db<J>, token: string, now: int, later: int)
    requires Valid(db) && VerifyStep(db, token, now).1.Success?
    ensures UnusedToken(VerifyStep(db, token, now).0.users, token)
    ensures VerifyStep(VerifyStep(db, token, now).0, token, later).1 == Failure(InvalidToken)
  {
    var h := FirstWhere(db.users, HoldsToken(token)).value;
    var u := db.users[h];
    var users' := VerifyStep(db, token, now).0.users;
    var i := FirstWhere(db.users, WithId(u.id)).value;
    assert i == h;
    forall k | 0 <= k < |users'| ensures users'[k].token != Some(token) {
      if k != h {
        assert users'[k] == db.users[k];
      }
    }
  }

  /** An expired token stays expired: the refusal leaves it stored, and any
      later attempt is refused the same way. */
  lemma ExpiredStaysExpired<J>(db: Db<J>, token: string, now: int, later: int)
    requires VerifyStep(db, token, now).1 == Failure(TokenExpired) && later >= now
    ensures VerifyStep(db, token, now).0 == db
    ensures VerifyStep(db, token, later).1 == Failure(TokenExpired)
  {
  }

  // ---------------------------------------------------------------------
  // Analyses
  // ---------------------------------------------------------------------

  /** The gate's refusals, in the order the routes check them. */
  lemma GateOutcomes<J>(db: Db<J>, userId: string)
    ensures (Gate(db, userId) == Failure(UserIdRequired)) <==> userId == ""
    ensures (Gate(db, userId) == Failure(UserNotFound)) <==> userId != "" && UnusedId(db.users, userId)
    ensures (Gate(db, userId) == Failure(UsageLimitReached)) <==>
      userId != "" && !UnusedId(db.users, userId)
      && FindOne(db.users, WithId(userId)).value.usageCount >= FreeTierLimit
    ensures Gate(db, userId).Success? ==>
      var u := Gate(db, userId).value;
      u == FindOne(db.users, WithId(userId)).value && u.id == userId && u.usageCount < FreeTierLimit
  {
  }

  /** What a stored analysis changes: one record appended to `analyses`, one
      use counted for its user, and nothing else. */
  ghost predicate Stored<J>(db: Db<J>, db': Db<J>, userId: string, text: string, c: Created<J>, now: int)
    requires GetUser(db, userId).Success?
  {
    var before := GetUser(db, userId).value;
    && db'.analyses == db.analyses + [Analysis(c.analysisId, userId, Prefix(text, StoredTextChars), c.analysis, now)]
    && GetUser(db', userId) == Success(before.(usageCount := before.usageCount + 1))
    && c.remainingUses == FreeTierLimit - (before.usageCount + 1)
    && (forall other :: other != userId ==> GetUser(db', other) == GetUser(db, other))
    && var i := FirstWhere(db.users, WithId(userId)).value;
       db'.users == db.users[i := db.users[i].(usageCount := db.users[i].usageCount + 1)]
  }

  /** Storing an analysis the AI step produced for a user the gate let
      through: only a JSON object is stored. */
  lemma CommitOutcome<J>(db: Db<J>, userId: string, user: User, text: string, ai: Result<J, AiError>,
                         isObject: J -> bool, failed: ApiError, newId: string, now: int)
    requires Gate(db, userId) == Success(user)
    ensures GetUser(db, userId).Success?
    ensures var (db', r) := Commit(db, userId, user, text, ai, isObject, failed, newId, now);
      && (r.Success? <==> ai.Success? && isObject(ai.value))
      && (ai.Failure? ==> r == Failure(AiFailed(ai.error)) && db' == db)
      && (ai.Success? && !isObject(ai.value) ==> r == Failure(failed) && db' == db)
      && (r.Success? ==>
            && r.value.analysisId == newId && r.value.analysis == ai.value
            && r.value.remainingUses == FreeTierLimit - GetUser(db, userId).value.usageCount - 1 >= 0
            && Stored(db, db', userId, text, r.value, now))
  {
    if ai.Success? && isObject(ai.value) {
      var db' := Commit(db, userId, user, text, ai, isObject, failed, newId, now).0;
      CountedUse(db, db', userId);
    }
  }

  /** Counting a use changes the usage count of that user alone. */
  lemma CountedUse<J>(db: Db<J>, db': Db<J>, userId: string)
    requires GetUser(db, userId).Success?
    requires db'.users == UpdateFirst(db.users, WithId(userId), CountUse())
    ensures var before := GetUser(db, userId).value;
      GetUser(db', userId) == Success(before.(usageCount := before.usageCount + 1))
    ensures forall other :: other != userId ==> GetUser(db', other) == GetUser(db, other)
  {
    var i := FirstWhere(db.users, WithId(userId)).value;
    assert db'.users == db.users[i := db.users[i].(usageCount := db.users[i].usageCount + 1)];
    assert forall k :: 0 <= k < |db.users| ==> db'.users[k].id == db.users[k].id;
    forall other | other != userId
      ensures GetUser(db', other) == GetUser(db, other)
    {
      SameIdsSameLookup(db, db', other);
    }
    SameIdsSameLookup(db, db', userId);
  }

  /** Collections with the same ids at the same places find a user at the
      same place. */
  lemma SameIdsSameLookup<J>(db: Db<J>, db': Db<J>, id: string)
    requires |db.users| == |db'.users| && forall k :: 0 <= k < |db.users| ==> db'.users[k].id == db.users[k].id
    ensures FirstWhere(db'.users, WithId(id)) == FirstWhere(db.users, WithId(id))
  {
    FirstWhereAgree(db'.users, WithId(id), db.users, WithId(id));
  }

  /** `POST /analyze/text`: the gate's refusal, the AI step's error, or 500
      "Analysis failed" for a value that is not a JSON object, with nothing
      changed; or the analysis stored and the use counted. */
  lemma AnalyzeTextOutcome<J>(db: Db<J>, userId: string, text: string, replies: seq<AiReply>, parse: Parser<J>, isObject: J -> bool, newId: string, now: int)
    requires |replies| == MaxAttempts
    ensures var (db', r) := AnalyzeTextStep(db, userId, text, replies, parse, isObject, newId, now);
      var ai := AnalyzeWithAi(text, replies, parse);
      && (r.Failure? ==> db' == db)
      && (Gate(db, userId).Failure? ==> r == Failure(Gate(db, userId).error))
      && (Gate(db, userId).Success? ==>
            && GetUser(db, userId).Success?
            && (r.Success? <==> ai.Success? && isObject(ai.value))
            && (ai.Failure? ==> r == Failure(AiFailed(ai.error)))
            && (ai.Success? && !isObject(ai.value) ==> r == Failure(AnalysisFailed))
            && (r.Success? ==>
                  r.value.analysisId == newId && r.value.analysis == ai.value
                  && Stored(db, db', userId, text, r.value, now)))
  {
    if Gate(db, userId).Success? {
      CommitOutcome(db, userId, Gate(db, userId).value, text, AnalyzeWithAi(text, replies, parse),
                    isObject, AnalysisFailed, newId, now);
    }
  }

  /** `POST /analyze/pdf`: after the same gate, an unreadable upload is a
      500, a PDF without text a 400, and any other is analysed exactly as
      the text of its pages would be by `/analyze/text`, except that a
      value that is not a JSON object gets this route's own 500. */
  lemma AnalyzePdfOutcome<J>(db: Db<J>, userId: string, pdf: Option<seq<Option<string>>>, replies: seq<AiReply>, parse: Parser<J>, isObject: J -> bool, newId: string, now: int)
    requires |replies| == MaxAttempts
    ensures var (db', r) := AnalyzePdfStep(db, userId, pdf, replies, parse, isObject, newId, now);
      && (r.Failure? ==> db' == db)
      && (Gate(db, userId).Failure? ==> r == Failure(Gate(db, userId).error))
      && (Gate(db, userId).Success? && pdf.None? ==> r == Failure(PdfAnalysisFailed))
      && (Gate(db, userId).Success? && pdf.Some? && PyStrip(PagesText(pdf.value)) == "" ==> r == Failure(NoPdfText))
      && (pdf.Some? && PyStrip(PagesText(pdf.value)) != "" ==>
            var ai := AnalyzeWithAi(PagesText(pdf.value), replies, parse);
            && (ai.Failure? || isObject(ai.value) ==>
                  AnalyzePdfStep(db, userId, pdf, replies, parse, isObject, newId, now)
                    == AnalyzeTextStep(db, userId, PagesText(pdf.value), replies, parse, isObject, newId, now))
            && (Gate(db, userId).Success? && ai.Success? && !isObject(ai.value) ==>
                  && r == Failure(PdfAnalysisFailed)
                  && AnalyzeTextStep(db, userId, PagesText(pdf.value), replies, parse, isObject, newId, now).1
                       == Failure(AnalysisFailed)))
  {
  }

  /** Pages without text contribute nothing to the extracted text. */
  lemma {:induction false} PagesTextSkipsEmpty(pages: seq<Option<string>>)
    requires forall k :: 0 <= k < |pages| ==> pages[k].None? || pages[k] == Some("")
    ensures PagesText(pages) == ""
  {
    if pages != [] {
      PagesTextSkipsEmpty(pages[1..]);
    }
  }

  // ---------------------------------------------------------------------
  // Reading
  // ---------------------------------------------------------------------

  /** `GET /analyses/{user_id}` lists exactly the user's analyses, and under
      the invariant there are as many as the user's usage count, so never
      more than the free tier allows. */
  lemma HistoryWithinFreeTier<J>(db: Db<J>, userId: string)
    requires Valid(db)
    ensures GetAnalyses(db, userId).Success? <==> GetUser(db, userId).Success?
    ensures GetAnalyses(db, userId).Success? ==>
      var list := GetAnalyses(db, userId).value;
      && (forall k :: 0 <= k < |list| ==> list[k].userId == userId && list[k] in db.analyses)
      && (forall k :: 0 <= k < |db.analyses| && db.analyses[k].userId == userId ==> db.analyses[k] in list)
      && |list| == GetUser(db, userId).value.usageCount <= FreeTierLimit
  {
    if GetUser(db, userId).Success? {
      var i := FirstWhere(db.users, WithId(userId)).value;
      var list := GetAnalyses(db, userId).value;
      assert list == Filter(db.analyses, OwnedBy(db.users[i].id));
      forall k | 0 <= k < |db.analyses| && db.analyses[k].userId == userId
        ensures db.analyses[k] in list
      {
        assert OwnedBy(userId)(db.analyses[k]);
      }
    }
  }

  /** A stored analysis is the last entry of its user's history. */
  lemma HistoryGrowsByOne<J>(db: Db<J>, db': Db<J>, userId: string, text: string, c: Created<J>, now: int)
    requires GetUser(db, userId).Success? && Stored(db, db', userId, text, c, now)
    ensures GetAnalyses(db', userId) ==
      Success(GetAnalyses(db, userId).value + [Analysis(c.analysisId, userId, Prefix(text, StoredTextChars), c.analysis, now)])
  {
    FilterAppend(db.analyses, Analysis(c.analysisId, userId, Prefix(text, StoredTextChars), c.analysis, now), OwnedBy(userId));
  }

  /** Once a user's usage count reaches the free tier, every further
      analysis request is refused with 403 and changes nothing. */
  lemma LimitReachedRefusesAll<J>(db: Db<J>, userId: string, text: string, pdf: Option<seq<Option<string>>>, replies: seq<AiReply>, parse: Parser<J>, isObject: J -> bool, newId: string, now: int)
    requires |replies| == MaxAttempts && userId != ""
    requires GetUser(db, userId).Success? && GetUser(db, userId).value.usageCount >= FreeTierLimit
    ensures AnalyzeTextStep(db, userId, text, replies, parse, isObject, newId, now) == (db, Failure(UsageLimitReached))
    ensures AnalyzePdfStep(db, userId, pdf, replies, parse, isObject, newId, now) == (db, Failure(UsageLimitReached))
  {
  }
}
