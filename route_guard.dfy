/** The Next.js middleware that guards the front end's routes: a request without the
    `auth-token` cookie is sent to the login page, a signed-in visitor of the login page
    is sent home, and the matcher keeps the guard away from static assets. */
module RouteGuard {
  import opened Wrappers
  import opened JsString

  const AUTH_COOKIE: string := "auth-token"
  const LOGIN_PATH: string := "/login"
  const HOME_PATH: string := "/"

  /** What the middleware answers: let the request through, or redirect it. */
  datatype Response = Next | Redirect(target: string)

  /** `request.cookies.get("auth-token")?.value`, taken as a condition: present and
      not empty. */
  predicate IsAuthenticated(authCookie: Option<string>) {
    authCookie.Some? && authCookie.value != ""
  }

  /** `middleware`: the decision for a request the matcher applies to. */
  function Middleware(authCookie: Option<string>, pathname: string): (r: Response)
    ensures r == Redirect(LOGIN_PATH) <==> !IsAuthenticated(authCookie) && pathname != LOGIN_PATH
    ensures r == Redirect(HOME_PATH) <==> IsAuthenticated(authCookie) && pathname == LOGIN_PATH
    ensures r == Next <==> (IsAuthenticated(authCookie) <==> pathname != LOGIN_PATH)
  {
    if !IsAuthenticated(authCookie) && pathname != LOGIN_PATH then Redirect(LOGIN_PATH)
    else if IsAuthenticated(authCookie) && pathname == LOGIN_PATH then Redirect(HOME_PATH)
    else Next
  }

  /** The negative lookahead of the matcher, at the character after the leading `/`:
      `_next/static`, `_next/image`, or `favicon`, any one character but a line
      terminator (the `.` is not escaped), then `ico`. */
  predicate ExcludedPrefix(rest: string) {
    || StartsWith(rest, "_next/static")
    || StartsWith(rest, "_next/image")
    || (|rest| >= 11 && rest[..7] == "favicon" && !IsLineTerminator(rest[7]) && rest[8..11] == "ico")
  }

  /** `config.matcher`, the pattern `/((?!_next/static|_next/image|favicon.ico).*)`
      anchored at both ends: a `/`, no excluded prefix after it, and then any characters
      but line terminators. */
  predicate MatcherApplies(pathname: string) {
    && |pathname| >= 1
    && pathname[0] == '/'
    && !ExcludedPrefix(pathname[1..])
    && forall i :: 1 <= i < |pathname| ==> !IsLineTerminator(pathname[i])
  }

  /** What a request meets: the middleware when the matcher applies, otherwise nothing. */
  function Guard(authCookie: Option<string>, pathname: string): (r: Response)
    ensures !MatcherApplies(pathname) ==> r == Next
    ensures r.Redirect? ==> r.target == LOGIN_PATH || r.target == HOME_PATH
  {
    if MatcherApplies(pathname) then Middleware(authCookie, pathname) else Next
  }

  /** The login page and the home page are both guarded. */
  lemma GuardedPages()
    ensures MatcherApplies(LOGIN_PATH) && MatcherApplies(HOME_PATH)
  {
    assert LOGIN_PATH[1..] == "login";
  }

  /** Without the cookie, every guarded page except the login page redirects to it. */
  lemma UnauthenticatedGoesToLogin(authCookie: Option<string>, pathname: string)
    requires !IsAuthenticated(authCookie) && pathname != LOGIN_PATH && MatcherApplies(pathname)
    ensures Guard(authCookie, pathname) == Redirect(LOGIN_PATH)
  {
  }

  /** With the cookie, the login page redirects home. */
  lemma AuthenticatedLeavesLogin(authCookie: Option<string>)
    requires IsAuthenticated(authCookie)
    ensures Guard(authCookie, LOGIN_PATH) == Redirect(HOME_PATH)
  {
    GuardedPages();
  }

  /** Following a redirect with the same cookie is let through: the guard never sends a
      request round in a loop, and never redirects the login page to itself. */
  lemma NoRedirectLoop(authCookie: Option<string>, pathname: string)
    requires Guard(authCookie, pathname).Redirect?
    ensures Guard(authCookie, Guard(authCookie, pathname).target) == Next
    ensures Guard(authCookie, pathname).target != pathname
  {
    GuardedPages();
  }

  /** Static files, optimized images and the favicon are never guarded, whatever
      follows their prefix. */
  lemma StaticPathsPass(authCookie: Option<string>, rest: string)
    ensures Guard(authCookie, "/_next/static" + rest) == Next
    ensures Guard(authCookie, "/_next/image" + rest) == Next
    ensures Guard(authCookie, "/favicon.ico" + rest) == Next
  {
    assert ("/_next/static" + rest)[1..][..12] == "_next/static";
    assert ("/_next/image" + rest)[1..][..11] == "_next/image";
    var f := ("/favicon.ico" + rest)[1..];
    assert f == "favicon.ico" + rest;
    assert f[..7] == "favicon" && f[7] == '.';
    assert f[8..11] == "ico";
  }
}
