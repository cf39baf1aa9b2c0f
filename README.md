# ResumeAI in Dafny

ResumeAI is a resume-analysis web application. Its FastAPI backend signs
users in with magic-link tokens and counts their analyses against a free
tier of three. It checks that submitted text looks like a resume and asks
a language model, up to three times, for a JSON analysis. It then stores
the analysis in a document store. Its React client restores the session
from `localStorage`, guards the protected routes, submits text or a PDF,
and shows the results and the user's history.

This project models both halves:

- **Backend** (`backend/server.py`). Each route is a function from the
  database (`Server.Db`, its two collections as sequences in insertion
  order) to the next database and the route's reply or `HTTPException`.
  The class `ServerStore.Store` runs the same routes against collections
  it updates in place. Each of its methods is proved to take the step its
  function describes and to keep the store's invariant: unique ids,
  emails and outstanding tokens; every user's history as long as their
  usage count, which stays within the free tier; every analysis owned by
  a user.
- **AI step.** `validate_resume_content` becomes `ResumeValidator`;
  `extract_json` becomes `JsonExtract`, a specification function plus the
  method with its prefix loop; the three-attempt loop of
  `analyze_resume_with_ai` becomes `AiAnalysis`. The model's replies are
  an oracle. `json.loads` is a parser passed in.
- **Client** (`frontend/src/App.js` and the four pages). Each component
  is a class whose fields are its React state. `localStorage` is a
  `Browser.Storage` object holding a map. An axios call's outcome is a
  `Browser.Reply`, and `Browser.Delivered` connects the backend's answers
  to what the pages receive, so the page lemmas can speak about the
  backend's state.

Identifiers (`uuid4`), tokens (`token_urlsafe`), the clock (integer
seconds), the PDF reader's page texts and the model's replies are
parameters.

Behaviours of the code worth knowing, each proved or modelled as written:

- The client restores any stored count through `parseInt(…) || 0`. It
  accepts any parseable number, so `-2` restores as
  -2 and `abc` as 0 (`NumberText.ParseIntRoundTrip`,
  `NumberText.ParseIntNoDigits`).
- The analyze page makes no local quota check. The limit is enforced by
  the backend's 403, which the page turns into the pricing redirect
  (`ClientAnalyze.AtLimitGoesToPricing`).
- A submission with both pasted text and a chosen file sends the file and
  ignores the text (`ClientAnalyze.RequestChoice`).
- After a successful analysis the page stores its own copy of the count
  plus one. That copy is never refreshed, so a second analysis in the
  same session stores the same number again. Storage lags the backend
  until the dashboard reloads it (`ClientAnalyze.SecondAnalysisLeavesStaleCount`,
  `ClientDashboard.DashboardPage.Fetch`).
- The history is listed in insertion order, oldest first.
- Sign-in uses only the magic-link token, which the reply to the
  magic-link request always carries.
- An analysis is stored only when the model's JSON is an object
  (`analysis_result: dict`). Any other JSON value, such as `[1]`, is
  answered with the route's generic 500, and nothing is stored or counted
  (`ServerProperties.CommitOutcome`).

## Model

| member | source | states |
|---|---|---|
| Strings.TrimStart | backend/server.py:135 | the result is the suffix of the input starting at its first non-space character; everything dropped is space |
| Strings.TrimEnd | backend/server.py:135 | the result is the prefix of the input ending at its last non-space character; everything dropped is space |
| Strings.TrimEmptyIff | frontend/src/pages/Analyze.js:42 | trimming leaves nothing exactly when every character is white space |
| Strings.Split | backend/server.py:186 | `split('\n')` gives at least one piece, no piece holds the separator, and joining the pieces gives the text back |
| Strings.SplitJoin | backend/server.py:186 | splitting undoes joining when no piece holds the separator |
| Strings.SplitPiece | backend/server.py:186 | a string without the separator splits into itself alone |
| Strings.SplitConcat | backend/server.py:186 | a separator-free first line is the first piece, followed by the pieces of the rest |
| Strings.ContainsIff | backend/server.py:180 | the substring search succeeds exactly when the keyword occurs at some position |
| NumberText.NatToString | frontend/src/pages/Landing.js:54 | a number's decimal rendering is non-empty, all digits, with no leading zero, and "0" for zero |
| NumberText.DigitRun | frontend/src/App.js:25 | `parseInt` reads the longest run of digits at the start: every character in the run is a digit and the next one is not |
| NumberText.Unsigned | frontend/src/App.js:25 | dropping an optional sign never lengthens the text |
| NumberText.DigitsValueOfNatToString | frontend/src/App.js:25 | reading back the digits of a rendering gives the number |
| NumberText.DigitRunAll | frontend/src/App.js:25 | text that is all digits is read whole |
| NumberText.ParseUnsignedNatToString | frontend/src/App.js:25 | an unsigned rendering parses to its number |
| NumberText.SignedRendering | frontend/src/pages/Analyze.js:67 | after the sign comes the rendering of the magnitude, and the sign is present exactly for negative numbers |
| NumberText.NoLeadingSpace | frontend/src/App.js:25 | text starting with a sign or a digit loses nothing to the leading-space skip |
| NumberText.ParseIntRoundTrip | frontend/src/App.js:25 | a count written with `setItem` is restored by `parseInt(…) \|\| 0` as the same number, negative ones included |
| NumberText.NoDecimalDigitSuffix | frontend/src/App.js:25 | a suffix of digit-free text is digit-free |
| NumberText.ParseUnsignedNoDigits | frontend/src/App.js:25 | digit-free text holds no number |
| NumberText.ParseIntNoDigits | frontend/src/App.js:25 | any text without a decimal digit restores as 0, since `NaN \|\| 0` is 0 |
| Collections.FirstWhere | backend/server.py:119-127 | `find_one` finds the first matching document: it matches and nothing before it does; no match means no document matches |
| Collections.UpdateFirst | backend/server.py:393-396 | `update_one` changes the first match only, leaves every other document as it was, and changes nothing when there is no match |
| Collections.Filter | backend/server.py:558 | `find(...).to_list` returns only matching documents from the collection, and every matching document |
| Collections.FilterAppend | backend/server.py:558 | inserting a document extends the matches by that document exactly when it matches |
| Collections.FilterNone | backend/server.py:558 | the query is empty when no document matches |
| Collections.FilterUpdateOther | backend/server.py:474 | changing a document that matches neither before nor after leaves the query's answer unchanged |
| Collections.FirstWhereAgree | backend/server.py:119-127 | queries that agree on every document find the same first match |
| Collections.FirstWhereAppend | backend/server.py:119-127 | inserting keeps an existing first match; when nothing matched before, the first match is the new document if it matches, and there is none otherwise |
| Collections.FindFirst | backend/server.py:119-127 | the scan returns the position of the first match |
| Collections.SelectWhere | backend/server.py:558 | the scan returns exactly the matching documents, in order |
| ResumeValidator.KeywordHits | backend/server.py:180 | counts the listed keywords that occur in the text it is given, never more than are listed |
| ResumeValidator.KeywordHitsCountsFound | backend/server.py:180 | for a list without repetitions, the count is the number of distinct keywords found |
| ResumeValidator.KeysIncreaseDistinct | backend/server.py:165-171 | a list whose length-and-initials keys strictly increase lists no keyword twice |
| ResumeValidator.ResumeKeywordsDistinct | backend/server.py:165-171 | the 25 resume keywords are listed once each, as in the source's set |
| ResumeValidator.FoundCons | backend/server.py:180 | the keywords found in a list are those of its head and of its tail |
| ResumeValidator.ResumeKeywordHits | backend/server.py:180 | the validator's keyword score is the number of distinct resume keywords the lower-cased text contains |
| ResumeValidator.CountNonBlank | backend/server.py:191 | counts the lines that `strip()` leaves non-empty, never more than there are lines |
| ResumeValidator.CountNonBlankCountsFilter | backend/server.py:191 | the count is the length of `[line for line in lines if line.strip()]` |
| ResumeValidator.Checks | backend/server.py:176-193 | the validator runs four checks, in the source's order |
| ResumeValidator.FirstFailureOfFourMessages | backend/server.py:176-195 | with four checks each carrying its own message, each message is given exactly when its check is the first to fail, and "Valid resume" exactly on acceptance |
| ResumeValidator.ValidationMessages | backend/server.py:173-195 | "too short" exactly when the stripped text is under 200 characters; "doesn't appear to be a resume" exactly when it is long enough but has under 3 keywords; "incomplete" exactly when those pass and there are under 5 lines; "very little content" exactly when those pass and under 5 lines are non-blank; "Valid resume" exactly on acceptance |
| ResumeValidator.FirstFailure | backend/server.py:160-195 | the text is accepted with "Valid resume" exactly when every check passes; otherwise the message is that of the first failing check |
| ResumeValidator.FirstFailureOfFour | backend/server.py:176-195 | acceptance is the conjunction of the four checks |
| ResumeValidator.AcceptanceIgnoresLineCount | backend/server.py:176-195 | acceptance is exactly: at least 200 characters after `strip()`, at least 3 distinct keywords, and at least 5 non-blank lines; the separate line-count check (187) never changes acceptance, only the message |
| ResumeValidator.LowerCharKeepsSpace | backend/server.py:173 | lower-casing keeps white space and line breaks, and is idempotent on a character |
| ResumeValidator.LowerTrimStart | backend/server.py:173 | lower-casing commutes with trimming the start |
| ResumeValidator.LowerInit | backend/server.py:173 | lower-casing commutes with dropping the last character |
| ResumeValidator.LowerTrimEnd | backend/server.py:173 | lower-casing commutes with trimming the end |
| ResumeValidator.LowerStrip | backend/server.py:173-176 | `s.lower().strip()` equals `s.strip().lower()` |
| ResumeValidator.LowerAll | backend/server.py:186 | every line is lower-cased in place |
| ResumeValidator.SplitLower | backend/server.py:173-186 | splitting the lower-cased text gives the lower-cased lines |
| ResumeValidator.CountNonBlankLower | backend/server.py:191 | lower-casing does not change which lines are blank |
| ResumeValidator.LowerIdempotent | backend/server.py:173 | lower-casing twice is lower-casing once |
| ResumeValidator.ChecksIgnoreCase | backend/server.py:173-193 | each check sees the same measurements in a text and its lower-cased form |
| ResumeValidator.ValidateIgnoresCase | backend/server.py:160-195 | a text and its lower-cased form get the same verdict and the same message |
| JsonExtract.FirstIndex | backend/server.py:141 | the first `{` found is a `{`, and no earlier character is one |
| JsonExtract.LastIndex | backend/server.py:141 | the last `}` found is a `}`, and no later character is one |
| JsonExtract.BraceSpanBounds | backend/server.py:141-145 | the greedy match runs from the first `{` to the last `}`, which comes after it |
| JsonExtract.BraceSpanAbsent | backend/server.py:141-143 | there is no match exactly when no `}` follows a `{` |
| JsonExtract.LongestParsedPrefixSpec | backend/server.py:151-155 | a prefix is found exactly when some prefix parses, and it is the longest one that does |
| JsonExtract.LongestPrefix | backend/server.py:151-155 | the descending-length loop returns the longest parseable prefix of the match |
| JsonExtract.ExtractJson | backend/server.py:130-157 | the method returns what `extract_json` specifies: the stripped text parsed, else the match parsed, else its longest parseable prefix, else the error |
| JsonExtract.WholeTextFirst | backend/server.py:135-138 | a reply that parses once stripped is returned as parsed |
| JsonExtract.SpanFallback | backend/server.py:141-157 | otherwise the value comes from the match itself or from its longest parseable prefix; failure means no prefix parses, and the error is the match's own decoding error |
| JsonExtract.NoJsonObjectIff | backend/server.py:137-143 | "No JSON object found" is raised exactly when the stripped text does not parse and holds no brace match |
| JsonExtract.FromSpanNotNoJson | backend/server.py:145-157 | once a match exists the error is never "No JSON object found" |
| JsonExtract.FromSpanFails | backend/server.py:147-157 | the match's fallback fails exactly when no prefix parses, with the match's own error |
| JsonExtract.CouldNotParseIff | backend/server.py:137-157 | "Could not parse JSON" is raised exactly when there is a match and none of its prefixes parses |
| AiAnalysis.Outcomes | backend/server.py:341-366 | there is one outcome per attempt |
| AiAnalysis.OutcomeAt | backend/server.py:341-366 | the outcome of attempt i is that attempt on the i-th reply |
| AiAnalysis.Retry | backend/server.py:341-371 | the run succeeds exactly when some attempt succeeds, with the value of the first success after that many attempts; otherwise it keeps the last attempt's error |
| AiAnalysis.TryReply | backend/server.py:354-362 | the method's attempt on reply i, running `extract_json`'s loop, ends as the attempt on that reply is specified to: a raised call, no message, null content or bad JSON fail with their own error; content `extract_json` recovers succeeds |
| AiAnalysis.RetryLoop | backend/server.py:339-371 | the loop of at most three attempts ends as `Retry` specifies |
| AiAnalysis.AnalyzeResumeWithAi | backend/server.py:201-371 | the method returns the validation's 400 or the loop's outcome, and counts the calls made to the model |
| AiAnalysis.RetryFirstSuccess | backend/server.py:360-362 | the run stops at the first success |
| AiAnalysis.RetryAllFail | backend/server.py:364-371 | when every attempt fails, the run gives up with the last error |
| AiAnalysis.RejectedBeforeAnyCall | backend/server.py:203-205 | a rejected text is answered with 400 and the validator's message, and the model is never called |
| AiAnalysis.FirstGoodReplyWins | backend/server.py:341-362 | for a valid text the analysis is the first successful attempt's value, after that many calls |
| AiAnalysis.AllAttemptsFail | backend/server.py:364-371 | for a valid text, three failures give a 500 carrying the third attempt's error, after three calls |
| AiAnalysis.LaterRepliesIgnored | backend/server.py:360-362 | replies after the first good one do not affect the outcome |
| AiAnalysis.SharedPrefixSameRetry | backend/server.py:360-362 | replies that agree up to a good one give loops that end the same way |
| AiAnalysis.RetryDecidedBy | backend/server.py:341-362 | runs that agree up to a success end the same way |
| AiAnalysis.AttemptOutcomes | backend/server.py:354-360 | only a reply with content can succeed; stripped JSON content succeeds with its value; content fails exactly when `extract_json` fails |
| Server.Prefix | backend/server.py:469 | `s[:500]` is a prefix of at most 500 characters, and all of `s` when it is short enough |
| ServerProperties.SameAccountsKeepValid | backend/server.py:426-429 | changing only tokens keeps the invariant if tokens stay unique |
| ServerProperties.ClearingKeepsTokensUnique | backend/server.py:426-429 | clearing a token keeps the outstanding tokens unique |
| ServerProperties.IssuingKeepsTokensUnique | backend/server.py:393-396 | issuing an unused token keeps the outstanding tokens unique |
| ServerProperties.NoHistoryForUnusedId | backend/server.py:558 | no analysis belongs to an id no user has |
| ServerProperties.MagicLinkKeepsValid | backend/server.py:377-399 | a magic link keeps the invariant, given a fresh id and an unused token |
| ServerProperties.NewUserKeepsValid | backend/server.py:384-391 | inserting a user with a new id, a new email, an unused token and no uses keeps the invariant |
| ServerProperties.NewUserHistory | backend/server.py:384-391 | a new user with no uses has no history |
| ServerProperties.VerifyKeepsValid | backend/server.py:405-437 | verifying keeps the invariant |
| ServerProperties.CommitKeepsValid | backend/server.py:466-474 | storing an analysis for a user the gate let through, or refusing a non-object one, keeps the invariant |
| ServerProperties.CountedUseKeepsUnique | backend/server.py:474 | counting a use changes no id, email or token |
| ServerProperties.CountedUseKeepsHistory | backend/server.py:472-474 | one more analysis and one more use for the same user keep every history equal to its usage count |
| ServerProperties.CountedUseKeepsOwners | backend/server.py:472-474 | the new analysis has an owner, and so does every earlier one |
| ServerProperties.AnalyzeTextKeepsValid | backend/server.py:448-480 | `POST /analyze/text` keeps the invariant |
| ServerProperties.AnalyzePdfKeepsValid | backend/server.py:488-528 | `POST /analyze/pdf` keeps the invariant |
| ServerProperties.MagicLinkIssuesToken | backend/server.py:377-399 | the email's user holds the new token for an hour; an unknown email gets a new user with no uses, a known one keeps its id and count; analyses are untouched; the user list gains exactly the new user, or the known user's token and expiry are replaced and nothing else changes |
| ServerProperties.IssuedTokenHolder | backend/server.py:383-396 | the only holder of a just-issued token is the email's user |
| ServerProperties.MagicLinkThenVerify | backend/server.py:377-437 | a just-issued token verifies up to and including its expiry instant and is refused as expired after it; the session is the email's account |
| ServerProperties.ReissueRevokesEarlierToken | backend/server.py:393-410 | a second magic link for an email makes the earlier token invalid |
| ServerProperties.VerifyOutcomes | backend/server.py:408-437 | an unheld token gives 401 "Invalid token"; the holder's token gives "Token expired" exactly when past its expiry; a refusal changes nothing; a success returns the holder's account, keeps every id, email and count, and, with unique ids, sets only the holder's token and expiry to None |
| ServerProperties.VerifySingleUse | backend/server.py:426-429 | after a successful verification the token is held by no one, and a second use is invalid |
| ServerProperties.ExpiredStaysExpired | backend/server.py:422-423 | an expired token stays stored and stays expired |
| ServerProperties.GateOutcomes | backend/server.py:451-459 | the routes refuse with 400 exactly for an empty id, then 404 exactly for an unknown id, then 403 exactly at the limit; otherwise they proceed with that user, who is under the limit |
| ServerProperties.CommitOutcome | backend/server.py:461-485 | the route succeeds exactly when the AI step gives a JSON object; an AI error is passed on, and a non-object gets the route's 500, both with nothing stored; a success stores the record, counts the use and reports `3 - count - 1` remaining uses from the count before the call, never negative; the user list differs only in that user's count, one higher |
| ServerProperties.CountedUse | backend/server.py:474 | counting a use raises that user's count by one and changes no other user's answer |
| ServerProperties.SameIdsSameLookup | backend/server.py:123-127 | collections with the same ids at the same places find each user at the same place |
| ServerProperties.AnalyzeTextOutcome | backend/server.py:448-485 | a refusal changes nothing; the gate's refusal or the AI error is the answer; a non-object analysis is 500 "Analysis failed"; otherwise the analysis is stored and the use counted |
| ServerProperties.AnalyzePdfOutcome | backend/server.py:488-533 | after the gate, an unreadable upload is 500 "PDF analysis failed", a PDF without text a 400, and any other is analysed as its pages' text would be by `/analyze/text`, except that a non-object analysis is 500 "PDF analysis failed" where the text route says "Analysis failed" |
| ServerProperties.PagesTextSkipsEmpty | backend/server.py:507-510 | pages without text contribute nothing |
| ServerProperties.HistoryWithinFreeTier | backend/server.py:552-559 | the history exists exactly when the user does; it lists exactly the user's analyses, as many as the user's count, never more than three |
| ServerProperties.HistoryGrowsByOne | backend/server.py:467-472 | a stored analysis becomes the last entry of its user's history |
| ServerProperties.LimitReachedRefusesAll | backend/server.py:458-503 | at the limit both analyze routes answer 403 and change nothing |
| ServerStore.Store.constructor | backend/server.py:40-44 | an empty database satisfies the invariant |
| ServerStore.Store.MagicLink | backend/server.py:377-399 | the store takes the magic-link step and keeps the invariant given a fresh id and an unused token |
| ServerStore.Store.Verify | backend/server.py:405-437 | the store takes the verify step and keeps the invariant |
| ServerStore.Store.CheckAccess | backend/server.py:451-459 | the checks return the gate's verdict and change nothing |
| ServerStore.Store.Record | backend/server.py:466-485 | refusing a non-object analysis, or inserting it and counting the use, takes the commit step and keeps the invariant for a user the gate let through |
| ServerStore.Store.AnalyzeText | backend/server.py:448-485 | the store takes the `/analyze/text` step and keeps the invariant |
| ServerStore.Store.AnalyzePdf | backend/server.py:488-533 | the store takes the `/analyze/pdf` step and keeps the invariant |
| ServerStore.Store.FetchUser | backend/server.py:539-549 | `GET /user` answers from the current state and changes nothing |
| ServerStore.Store.FetchAnalyses | backend/server.py:552-559 | `GET /analyses` answers from the current state and changes nothing |
| ServerStore.JoinPages | backend/server.py:507 | the loop joins the pages' texts in order, treating a page without text as empty |
| ServerStore.PagesTextAppend | backend/server.py:507 | one more page appends its text |
| Browser.Storage.SetItem | frontend/src/pages/Landing.js:52-54 | `setItem` sets one key and keeps every other |
| Browser.Storage.Clear | frontend/src/App.js:32 | `clear` removes every key |
| Browser.DetailOr | frontend/src/pages/Landing.js:66 | `error.response?.data?.detail \|\| fallback` is the response's detail when it is a non-empty string, and the fallback otherwise |
| Browser.Delivered | frontend/src/pages/Analyze.js:70-76 | the page sees a body exactly when the backend succeeded, and otherwise the exception's status and detail |
| Browser.DetailNotEmpty | backend/server.py:452-510 | every refusal other than the validator's carries a non-empty detail |
| Browser.RefusalShown | frontend/src/pages/Landing.js:66 | a refusal with a detail shows that detail, never the page's fallback |
| ClientApp.RestoreAfterLogin | frontend/src/App.js:15-29 | a login stored by the landing page is restored by the next mount, count included |
| ClientApp.RestoreAfterCountUpdate | frontend/src/App.js:15-29 | rewriting the count keeps the restored session and changes only its count |
| ClientApp.RestoreNeedsIdentity | frontend/src/App.js:17-27 | a session is restored exactly when the id and email are stored and non-empty; without a stored count it restores 0 |
| ClientApp.RouteGuard | frontend/src/App.js:46-52 | a route redirects to `/` exactly when it is protected and no user is set; the results route shows the analysis named in its path |
| ClientApp.AppShell.constructor | frontend/src/App.js:12-13 | the app starts with no user, loading |
| ClientApp.AppShell.Mount | frontend/src/App.js:15-29 | mounting sets the restored user when there is one, and ends loading |
| ClientApp.AppShell.SetUser | frontend/src/App.js:12 | `setUser` replaces the user only |
| ClientApp.AppShell.Logout | frontend/src/App.js:31-34 | logout empties storage and the user, so the next mount restores no one |
| ClientLanding.LandingPage.constructor | frontend/src/pages/Landing.js:12-15 | the form starts empty and idle |
| ClientLanding.LandingPage.RedirectIfSignedIn | frontend/src/pages/Landing.js:18-22 | a signed-in visitor is sent to the dashboard, and nothing else changes |
| ClientLanding.LandingPage.RequestMagicLink | frontend/src/pages/Landing.js:24-42 | an empty email makes no request; otherwise the email is posted, a reply stores the token and shows it, a failure shows "Failed to send magic link", and loading ends |
| ClientLanding.LandingPage.VerifyToken | frontend/src/pages/Landing.js:44-70 | the token is posted; a session is stored under the three keys, set as the user and followed to `/analyze`; a refusal shows the server's detail or "Invalid or expired token" and changes no stored key |
| ClientAnalyze.RequestChoice | frontend/src/pages/Analyze.js:41-65 | nothing is sent exactly when there is no file and the text is blank; a file always wins; otherwise the text is sent as typed, with `null` for an empty role |
| ClientAnalyze.AnalyzePage.constructor | frontend/src/pages/Analyze.js:12-17 | the page starts with empty text and role, no file, idle, in text mode |
| ClientAnalyze.AnalyzePage.ChooseFile | frontend/src/pages/Analyze.js:19-27 | a PDF replaces the file and switches to upload mode; anything else only raises "Please upload a PDF file" |
| ClientAnalyze.AnalyzePage.DropFile | frontend/src/pages/Analyze.js:29-39 | a drop ends the drag highlight, then acts as the picker |
| ClientAnalyze.AnalyzePage.Analyze | frontend/src/pages/Analyze.js:41-80 | the request sent is the one the page's state calls for; with none, only "Please provide your resume" is shown; otherwise success stores the count plus one and opens the results, a 403 goes to pricing, other failures show the detail or "Analysis failed", and loading ends |
| ClientAnalyze.CanSubmitIffRequest | frontend/src/pages/Analyze.js:198 | the button is enabled exactly when the page is idle and a submission would send a request |
| ClientAnalyze.AtLimitGoesToPricing | frontend/src/pages/Analyze.js:70-73 | a user the backend has counted to the limit is sent to pricing on either route, and nothing is stored |
| ClientAnalyze.StoredCountMatchesBackend | frontend/src/pages/Analyze.js:67-69 | while the page's copy agrees with the backend, a stored analysis leaves the backend's new count in storage and opens that analysis |
| ClientAnalyze.SecondAnalysisLeavesStaleCount | frontend/src/pages/Analyze.js:67 | a second analysis in the same session raises the backend's count to two more but stores only one more |
| ClientAnalyze.AnalyzePage.Remaining | frontend/src/pages/Analyze.js:213 | `3 - user.usage_count` from the page's fixed copy of the user; its meaning is given by the two lemmas below |
| ClientAnalyze.RemainingMatchesBackend | frontend/src/pages/Analyze.js:213 | while the page's user agrees with the backend, "Remaining analyses" shows the backend's remaining uses, between 0 and 3 |
| ClientAnalyze.RemainingAfterAnalysis | frontend/src/pages/Analyze.js:213 | after the backend stores an analysis the shown count stays put, one more than the remaining uses the backend reports |
| ClientResults.FindAnalysis | frontend/src/pages/Results.js:51 | `find` returns the first analysis in the list with the id, and nothing exactly when none has it |
| ClientResults.NewAnalysisFound | frontend/src/pages/Results.js:50-53 | the analysis a submission stored is the one the results page finds |
| ClientResults.VerdictThreshold | frontend/src/pages/Results.js:126 | a score of 70 or more reads "well", 69 "below average", and a higher score never reads worse |
| ClientResults.ResultsPage.constructor | frontend/src/pages/Results.js:44-45 | the page starts loading, with no analysis |
| ClientResults.ResultsPage.Fetch | frontend/src/pages/Results.js:47-64 | the user's analyses are requested; a match is shown; a missing one or a failure raises its toast and goes to the dashboard; loading ends |
| ClientDashboard.DashboardPage.constructor | frontend/src/pages/Dashboard.js:14-16 | the page starts loading, with no history and the app's count |
| ClientDashboard.DashboardPage.Fetch | frontend/src/pages/Dashboard.js:18-40 | when both answers arrive the count and history are replaced and the count is stored; otherwise only "Failed to load data" is shown; loading ends |
| ClientDashboard.DashboardAgreesWithBackend | frontend/src/pages/Dashboard.js:22-28 | the two answers agree: the history is as long as the count, the remaining count is between 0 and 3, the upgrade prompt shows exactly at three analyses, and the empty state exactly at 0 |
| ClientDashboard.ReloadShowsBackend | frontend/src/pages/Dashboard.js:113-141 | after a reload the remaining count is never negative, the upgrade prompt shows exactly with three analyses, and "No analyses yet" exactly at count 0 |

## Left out

- The check for a missing `GROQ_API_KEY` (backend/server.py:207-208) cannot fire: the module refuses to start without the key (32-35).
- The prompt, the truncation of the text it carries (213), the model name and sampling settings, and `role_target`, which only shapes the prompt: the model's replies are an oracle.
- The generic `except Exception` branches for database failures (400-402, 440-442, 483-485, 531-533). The analyze routes' branches are modelled for the two failures the model can produce: a JSON value that is not an object (`AnalysisFailed`, `PdfAnalysisFailed`) and an unreadable PDF (`PdfAnalysisFailed`).
- Pydantic's validation of `EmailStr` and FastAPI's 422 answers: any string is an email. A 422's list-valued `detail` is not modelled.
- Document-store details: `_id`, the fallback `user.get("id", str(_id))`, and the string form of stored expiry times (417-420). Times are integer seconds.
- Collisions of `uuid4` or `token_urlsafe`: the store keeps its invariant only for a fresh id and an unused token, and says so in its precondition.
- Concurrency: each route runs atomically, so two requests racing past the quota gate are not modelled.
- Health check, startup, shutdown, CORS and logging.
- Rendering (JSX), styling, `ScoreRing`, `formatDate`, the Pricing page and `config.js`. A page keeps only its last toast.
- The 1.5-second `setTimeout` before the pricing redirect: the model navigates at once.
- The inline drag-over, drag-leave and mode-toggle handlers, which only set one state field each.
- URL escaping: `user.id` and `roleTarget` are sent verbatim in the query string.
- Only the first file of a pick or drop is looked at; a pick with no file is `None`.
- `useEffect` re-running when its dependencies change: each effect runs once.
- Strings.Lower: folds ASCII letters only. Python's `str.lower` also folds other alphabets and can change a text's length (for example `İ`).
- Browser.DetailNotEmpty: does not cover the validator's rejections: that their four fixed messages are non-empty is not proved.
- NumberText.IntToString: renders integers only. Counts are never fractional.
- NumberText.ParseInt: reads digits as an exact integer. JavaScript's `parseInt` gives a double, which rounds runs of more than 15 digits and gives `Infinity` for very long runs (kept by `|| 0`); the counts stored are small.
