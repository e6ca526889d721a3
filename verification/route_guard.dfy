/** The request middleware (src/middleware.ts): a request for a path under
    "/cart" without a next-auth session cookie is redirected to the login
    page, which is told where to come back to. Cookies are given as the set
    of cookie names the request carries. */
module RouteGuard {
  import opened Wrappers
  import SearchParams
  import SessionToken

  datatype Request = Request(pathname: string, params: SearchParams.Params, cookies: set<string>)

  datatype Decision = Next | Redirect(pathname: string, params: SearchParams.Params)

  const Protected := "/cart"
  const LoginPath := "/login"

  predicate StartsWith(s: string, prefix: string) {
    |prefix| <= |s| && s[..|prefix|] == prefix
  }

  /** Either session cookie counts as a session. */
  predicate HasSession(req: Request) {
    SessionToken.StandardCookie in req.cookies || SessionToken.SecureCookie in req.cookies
  }

  /** `middleware(req)`: redirect exactly the protected paths without a
      session, to "/login" with `callbackUrl` set to the original path and
      the other query parameters kept; let everything else through. */
  function Guard(req: Request): (d: Decision)
    ensures d.Redirect? <==> StartsWith(req.pathname, Protected) && !HasSession(req)
    ensures d.Redirect? ==>
      && d.pathname == LoginPath
      && SearchParams.Get(d.params, "callbackUrl") == Some(req.pathname)
      && forall k :: k != "callbackUrl" ==> SearchParams.Get(d.params, k) == SearchParams.Get(req.params, k)
  {
    if StartsWith(req.pathname, Protected) && !HasSession(req) then
      Redirect(LoginPath, SearchParams.Set(req.params, "callbackUrl", req.pathname))
    else Next
  }

  /** Adding a session cookie to a redirected request lets it through, and
      either cookie alone is enough. */
  lemma EitherCookieSuffices(req: Request, name: string)
    requires name == SessionToken.StandardCookie || name == SessionToken.SecureCookie
    ensures Guard(req.(cookies := req.cookies + {name})).Next?
  {
  }

  /** The session cookie values a request carries are present exactly for
      the cookie names it has. */
  predicate CarriesValues(req: Request, secure: Option<string>, standard: Option<string>) {
    && (secure.Some? <==> SessionToken.SecureCookie in req.cookies)
    && (standard.Some? <==> SessionToken.StandardCookie in req.cookies)
  }

  /** The token helper finds a session cookie value exactly when the
      middleware sees a session, so whenever the helper yields a token the
      cart page is not redirected. */
  lemma SessionValueIffGuardPasses(req: Request, secure: Option<string>, standard: Option<string>,
                                   decoded: Option<string>)
    requires CarriesValues(req, secure, standard)
    ensures SessionToken.SessionCookieValue(secure, standard).Some? <==> HasSession(req)
    ensures SessionToken.MyToken(SessionToken.SessionCookieValue(secure, standard), decoded).Some? ==>
      Guard(req).Next?
  {
  }
}
