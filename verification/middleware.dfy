/**
 * The route guard run before the protected pages: send a visitor without a
 * `uid` cookie to the login page, let everything else through.
 */
module Middleware {
  import opened Wrappers

  /** `protectedPaths`. */
  const ProtectedPaths: seq<string> := ["/profile", "/events", "/leaderboard"]

  /** `config.matcher`: the paths the guard is run on. */
  const MatcherPaths: seq<string> := ["/profile", "/events", "/leaderboard"]

  const LoginPath: string := "/login"

  datatype Decision = Redirect(location: string) | PassThrough

  /** `middleware(req)`, given the path name and the `uid` cookie's value if there is one. */
  function Guard(pathname: string, uid: Option<string>): (d: Decision)
    ensures d.Redirect? ==> d.location == LoginPath
    ensures d.Redirect? <==> pathname in ProtectedPaths && (uid.None? || uid.value == "")
  {
    if pathname in ProtectedPaths && (uid.None? || uid.value == "") then Redirect(LoginPath) else PassThrough
  }

  /** A non-empty cookie is never redirected. */
  lemma SignedInPassesThrough(pathname: string, token: string)
    requires token != ""
    ensures Guard(pathname, Some(token)) == PassThrough
  {
  }

  /** Matching is exact: a sub-path of a protected page is not guarded. */
  lemma SubPathNotGuarded(uid: Option<string>)
    ensures Guard("/events/x", uid) == PassThrough
    ensures Guard("/profile/", uid) == PassThrough
  {
    assert "/events/x" != "/events" && "/events/x" != "/profile" && "/events/x" != "/leaderboard";
    assert "/profile/" != "/events" && "/profile/" != "/profile" && "/profile/" != "/leaderboard";
  }

  /** Each of the three pages sends a visitor without a cookie to the login page. */
  lemma ProtectedPagesRedirect()
    ensures Guard("/profile", None) == Redirect("/login")
    ensures Guard("/events", Some("")) == Redirect("/login")
    ensures Guard("/leaderboard", None) == Redirect("/login")
  {
  }

  /** The guard runs on exactly the paths it protects. */
  lemma MatcherIsProtectedSet()
    ensures forall p :: p in MatcherPaths <==> p in ProtectedPaths
  {
  }
}
