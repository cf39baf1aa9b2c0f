/** The `Dashboard` page: reloading the user's count and history from the
    backend, and what it shows from them. */
module ClientDashboard {
  import opened Wrappers
  import opened NumberText
  import opened Server
  import opened ServerProperties
  import opened Browser

  /** The page's state for `user`. */
  class DashboardPage<J> {
    var analyses: seq<Analysis<J>>
    var loading: bool
    var currentUsage: int
    var toast: Option<Toast>
    const user: SessionUser
    const storage: Storage

    /** The first render shows the count the app holds, and no history. */
    constructor (user: SessionUser, storage: Storage)
      ensures this.user == user && this.storage == storage
      ensures analyses == [] && loading && currentUsage == user.usageCount && toast.None?
    {
      this.user := user;
      this.storage := storage;
      analyses := [];
      loading := true;
      currentUsage := user.usageCount;
      toast := None;
    }

    /** `3 - currentUsage`. */
    function Remaining(): int
      reads this
    {
      FreeTierLimit - currentUsage
    }

    /** The upgrade prompt. */
    predicate ShowsUpgrade()
      reads this
    {
      currentUsage >= FreeTierLimit
    }

    /** "No analyses yet", shown once loading is over. */
    predicate ShowsEmpty()
      reads this
    {
      !loading && |analyses| == 0
    }

    /** `fetchData`: the user and the analyses are requested together
        (`requested` is the user id asked for) and the page updates only
        when both answers arrive. */
    method Fetch(userReply: Reply<UserInfo>, analysesReply: Reply<seq<Analysis<J>>>) returns (requested: string)
      modifies this, storage
      ensures requested == user.id && !loading
      ensures userReply.Ok? && analysesReply.Ok? ==>
        currentUsage == userReply.body.usageCount && analyses == analysesReply.body
        && storage.items == old(storage.items)["usageCount" := IntToString(userReply.body.usageCount)]
        && toast == old(toast)
      ensures !(userReply.Ok? && analysesReply.Ok?) ==>
        currentUsage == old(currentUsage) && analyses == old(analyses) && storage.items == old(storage.items)
        && toast == Some(Toast(Negative, "Failed to load data"))
    {
      requested := user.id;
      if userReply.Ok? && analysesReply.Ok? {
        currentUsage := userReply.body.usageCount;
        analyses := analysesReply.body;
        storage.SetItem("usageCount", IntToString(userReply.body.usageCount));
      } else {
        toast := Some(Toast(Negative, "Failed to load data"));
      }
      loading := false;
    }
  }

  /** Under the backend's invariant the two answers the dashboard combines
      agree: the history has as many entries as the usage count, the
      remaining count is between 0 and 3, the upgrade prompt appears exactly
      when three analyses are listed, and the empty state exactly when the
      count is 0. */
  lemma DashboardAgreesWithBackend<J>(db: Db<J>, userId: string)
    requires Valid(db) && GetUser(db, userId).Success?
    ensures GetAnalyses(db, userId).Success?
    ensures var usage := GetUser(db, userId).value.usageCount;
      var list := GetAnalyses(db, userId).value;
      && |list| == usage
      && 0 <= FreeTierLimit - usage <= FreeTierLimit
      && (usage >= FreeTierLimit <==> |list| == FreeTierLimit)
      && (|list| == 0 <==> usage == 0)
      && (forall k :: 0 <= k < |list| ==> list[k].userId == userId)
  {
    HistoryWithinFreeTier(db, userId);
  }

  /** After a successful reload the page shows the backend's figures. */
  lemma ReloadShowsBackend<J>(page: DashboardPage<J>, db: Db<J>)
    requires Valid(db) && GetUser(db, page.user.id).Success?
    requires page.currentUsage == GetUser(db, page.user.id).value.usageCount
    requires GetAnalyses(db, page.user.id).Success? && page.analyses == GetAnalyses(db, page.user.id).value
    requires !page.loading
    ensures page.Remaining() >= 0
    ensures page.ShowsUpgrade() <==> |page.analyses| == FreeTierLimit
    ensures page.ShowsEmpty() <==> page.currentUsage == 0
  {
    DashboardAgreesWithBackend(db, page.user.id);
  }
}
