/** The `Results` page: finding the analysis named in the URL among the
    user's analyses, and the verdict shown beside its score. */
module ClientResults {
  import opened Wrappers
  import opened Collections
  import opened Server
  import opened ServerProperties
  import opened Browser

  function HasId<J>(id: string): Analysis<J> -> bool { (a: Analysis<J>) => a.id == id }

  /** `analyses.find(a => a.id === analysisId)`. */
  function FindAnalysis<J>(list: seq<Analysis<J>>, id: string): (r: Option<Analysis<J>>)
    ensures r.Some? ==> r.value.id == id && r.value in list
    ensures r.None? <==> forall k :: 0 <= k < |list| ==> list[k].id != id
    ensures r.Some? ==> exists i :: 0 <= i < |list| && list[i] == r.value && forall k :: 0 <= k < i ==> list[k].id != id
  {
    var found := FindOne(list, HasId(id));
    assert found.None? <==> forall k :: 0 <= k < |list| ==> !HasId(id)(list[k]);
    assert found.Some? ==>
      var i := FirstWhere(list, HasId(id)).value;
      list[i] == found.value && forall k :: 0 <= k < i ==> !HasId(id)(list[k]);
    found
  }

  /** The analysis a fresh submission stored is the one the results page
      finds in the backend's list. */
  lemma NewAnalysisFound<J>(db: Db<J>, db': Db<J>, userId: string, text: string, c: Created<J>, now: int)
    requires GetUser(db, userId).Success? && Stored(db, db', userId, text, c, now)
    requires forall k :: 0 <= k < |db.analyses| ==> db.analyses[k].id != c.analysisId
    ensures GetAnalyses(db', userId).Success?
    ensures FindAnalysis(GetAnalyses(db', userId).value, c.analysisId)
      == Some(Analysis(c.analysisId, userId, Prefix(text, StoredTextChars), c.analysis, now))
  {
    HistoryGrowsByOne(db, db', userId, text, c, now);
    var before := GetAnalyses(db, userId).value;
    var record := Analysis(c.analysisId, userId, Prefix(text, StoredTextChars), c.analysis, now);
    forall k | 0 <= k < |before| ensures !HasId(c.analysisId)(before[k]) {
      assert before[k] in db.analyses;
    }
    FirstWhereAppend(before, record, HasId(c.analysisId));
    assert (before + [record])[|before|] == record;
  }

  /** How the page describes a score. */
  datatype Verdict = PerformingWell | BelowAverage {
    function Text(): string {
      match this
      case PerformingWell => "well"
      case BelowAverage => "below average"
    }
  }

  /** `overall_score >= 70 ? 'well' : 'below average'`. */
  function VerdictFor(score: int): Verdict {
    if score >= 70 then PerformingWell else BelowAverage
  }

  /** A score at least as high as one that performs well performs well as
      well, and 70 is the lowest such score. */
  lemma VerdictThreshold(low: int, high: int)
    ensures low <= high && VerdictFor(low) == PerformingWell ==> VerdictFor(high) == PerformingWell
    ensures VerdictFor(70) == PerformingWell && VerdictFor(69) == BelowAverage
  {
  }

  /** The page's state for the analysis `analysisId` of `user`. */
  class ResultsPage<J> {
    var analysis: Option<Analysis<J>>
    var loading: bool
    var toast: Option<Toast>
    var navigatedTo: Option<Path>
    const analysisId: string
    const user: SessionUser

    constructor (analysisId: string, user: SessionUser)
      ensures this.analysisId == analysisId && this.user == user
      ensures analysis.None? && loading && toast.None? && navigatedTo.None?
    {
      this.analysisId := analysisId;
      this.user := user;
      analysis := None;
      loading := true;
      toast := None;
      navigatedTo := None;
    }

    /** The page shows nothing but its loading text while loading, and
        nothing at all when no analysis was found. */
    predicate ShowsAnalysis()
      reads this
    {
      !loading && analysis.Some?
    }

    /** `fetchAnalysis`: the user's analyses are requested (`requested` is
        the user id asked for) and `reply` is the answer. */
    method Fetch(reply: Reply<seq<Analysis<J>>>) returns (requested: string)
      modifies this
      ensures requested == user.id && !loading
      ensures reply.Ok? && FindAnalysis(reply.body, analysisId).Some? ==>
        analysis == FindAnalysis(reply.body, analysisId) && toast == old(toast) && navigatedTo == old(navigatedTo)
      ensures reply.Ok? && FindAnalysis(reply.body, analysisId).None? ==>
        analysis == old(analysis) && toast == Some(Toast(Negative, "Analysis not found")) && navigatedTo == Some(DashboardRoute)
      ensures reply.Failed? ==>
        analysis == old(analysis) && toast == Some(Toast(Negative, "Failed to load analysis")) && navigatedTo == Some(DashboardRoute)
    {
      requested := user.id;
      match reply {
        case Ok(list) =>
          var found := FindAnalysis(list, analysisId);
          if found.Some? {
            analysis := found;
          } else {
            toast := Some(Toast(Negative, "Analysis not found"));
            navigatedTo := Some(DashboardRoute);
          }
        case Failed(_) =>
          toast := Some(Toast(Negative, "Failed to load analysis"));
          navigatedTo := Some(DashboardRoute);
      }
      loading := false;
    }
  }
}
