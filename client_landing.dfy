/** The `Landing` page: asking for a magic link and signing in with it. */
module ClientLanding {
  import opened Wrappers
  import opened NumberText
  import opened Server
  import opened Browser
  import opened ClientApp

  /** The page's state; `app` holds the user it reads and sets. */
  class LandingPage {
    var email: string
    var showMagicLinkSent: bool
    var magicToken: string
    var loading: bool
    var toast: Option<Toast>
    var navigatedTo: Option<Path>
    const app: AppShell

    constructor (app: AppShell)
      ensures this.app == app
      ensures email == "" && !showMagicLinkSent && magicToken == "" && !loading
      ensures toast.None? && navigatedTo.None?
    {
      this.app := app;
      email := "";
      showMagicLinkSent := false;
      magicToken := "";
      loading := false;
      toast := None;
      navigatedTo := None;
    }

    /** The page renders nothing once a user is set. */
    predicate Renders()
      reads this, app
    {
      app.user.None?
    }

    /** The redirect effect: a signed-in visitor is sent to the dashboard. */
    method RedirectIfSignedIn()
      modifies this
      ensures navigatedTo == if app.user.Some? then Some(DashboardRoute) else old(navigatedTo)
      ensures email == old(email) && magicToken == old(magicToken) && loading == old(loading)
      ensures showMagicLinkSent == old(showMagicLinkSent) && toast == old(toast)
    {
      if app.user.Some? {
        navigatedTo := Some(DashboardRoute);
      }
    }

    /** `handleRequestMagicLink`; `reply` is the server's answer, and `sent`
        the email posted, `None` when no request is made. */
    method RequestMagicLink(reply: Reply<MagicLinkSent>) returns (sent: Option<string>)
      modifies this
      ensures old(email) == "" ==>
        sent.None? && toast == Some(Toast(Negative, "Please enter your email"))
        && loading == old(loading) && showMagicLinkSent == old(showMagicLinkSent) && magicToken == old(magicToken)
      ensures old(email) != "" ==> sent == Some(email) && !loading
      ensures old(email) != "" && reply.Ok? ==>
        magicToken == reply.body.token && showMagicLinkSent && toast == Some(Toast(Positive, "Magic link generated!"))
      ensures old(email) != "" && reply.Failed? ==>
        magicToken == old(magicToken) && showMagicLinkSent == old(showMagicLinkSent)
        && toast == Some(Toast(Negative, "Failed to send magic link"))
      ensures email == old(email) && navigatedTo == old(navigatedTo)
    {
      if email == "" {
        toast := Some(Toast(Negative, "Please enter your email"));
        return None;
      }
      loading := true;
      sent := Some(email);
      match reply {
        case Ok(body) =>
          magicToken := body.token;
          showMagicLinkSent := true;
          toast := Some(Toast(Positive, "Magic link generated!"));
        case Failed(_) =>
          toast := Some(Toast(Negative, "Failed to send magic link"));
      }
      loading := false;
    }

    /** `handleVerifyToken`; `reply` is the server's answer to the posted
        token, returned as `sent`. */
    method VerifyToken(reply: Reply<Session>) returns (sent: string)
      modifies this, app, app.storage
      ensures sent == old(magicToken) && !loading
      ensures reply.Ok? ==>
        app.storage.items == SignedIn(old(app.storage.items), reply.body.userId, reply.body.email, reply.body.usageCount)
        && app.user == Some(SessionUser(reply.body.userId, reply.body.email, reply.body.usageCount))
        && toast == Some(Toast(Positive, "Logged in successfully!"))
        && navigatedTo == Some(AnalyzeRoute)
      ensures reply.Failed? ==>
        app.storage.items == old(app.storage.items) && app.user == old(app.user)
        && toast == Some(Toast(Negative, DetailOr(reply.response, "Invalid or expired token")))
        && navigatedTo == old(navigatedTo)
      ensures app.loading == old(app.loading)
      ensures email == old(email) && magicToken == old(magicToken) && showMagicLinkSent == old(showMagicLinkSent)
    {
      loading := true;
      sent := magicToken;
      match reply {
        case Ok(body) =>
          app.storage.SetItem("userId", body.userId);
          app.storage.SetItem("userEmail", body.email);
          app.storage.SetItem("usageCount", IntToString(body.usageCount));
          app.SetUser(Some(SessionUser(body.userId, body.email, body.usageCount)));
          toast := Some(Toast(Positive, "Logged in successfully!"));
          navigatedTo := Some(AnalyzeRoute);
        case Failed(response) =>
          toast := Some(Toast(Negative, DetailOr(response, "Invalid or expired token")));
      }
      loading := false;
    }
  }
}
