/** The page middleware: which paths it runs on, who is let through, and the
    redirect of signed-in users away from the signup page. The `withAuth`
    wrapper belongs to next-auth, whose code is not part of this model; the
    model follows its documented v4 behaviour: it lets its own sign-in page,
    its error page and framework paths through untouched, and otherwise asks
    `authorized` before running the wrapped function. */
module Middleware {
  /** The pages open without a token. */
  predicate PublicPath(path: string) {
    path == "/login" || path == "/signup"
  }

  /** The `authorized` callback. */
  predicate Authorized(path: string, hasToken: bool) {
    PublicPath(path) || hasToken
  }

  /** `s` starts with `prefix`. */
  predicate StartsWith(s: string, prefix: string) {
    |prefix| <= |s| && s[..|prefix|] == prefix
  }

  /** The sign-in page configured in `pages.signIn`. */
  const SIGN_IN_PAGE: string := "/login"

  /** next-auth's default error page (no `pages.error` is configured). */
  const ERROR_PAGE: string := "/api/auth/error"

  /** The paths `withAuth` returns from early, before the `authorized`
      callback and the wrapped function run: the sign-in and error pages and
      anything under "/_next" or "/favicon.ico". */
  predicate SkippedByWrapper(path: string) {
    path == SIGN_IN_PAGE || path == ERROR_PAGE
    || StartsWith(path, "/_next") || StartsWith(path, "/favicon.ico")
  }

  /** The part of the matcher's negative lookahead that reads `favicon.ico`:
      the unescaped "." matches any one character. */
  predicate FaviconLike(rest: string) {
    |rest| >= 11 && rest[..7] == "favicon" && rest[8..11] == "ico"
  }

  /** The matcher `/((?!api/auth|_next/static|_next/image|favicon.ico).*)`,
      anchored: a "/" followed by anything that does not start with one of the
      excluded prefixes. */
  predicate Matched(path: string) {
    |path| >= 1 && path[0] == '/' &&
    var rest := path[1..];
    !StartsWith(rest, "api/auth") && !StartsWith(rest, "_next/static") && !StartsWith(rest, "_next/image")
    && !FaviconLike(rest)
  }

  /** What happens to a request. */
  datatype Outcome =
    | Bypassed             // the middleware does not run
    | SignIn(page: string) // sent to the sign-in page
    | Redirect(url: string)
    | Next                 // passed through unchanged

  /** The middleware for a request to `path` with or without a session token. */
  function Handle(path: string, hasToken: bool): (o: Outcome)
    ensures !Matched(path) <==> o == Bypassed
    ensures Matched(path) && SkippedByWrapper(path) ==> o == Next
    ensures Matched(path) && !SkippedByWrapper(path) ==>
      && (o == SignIn(SIGN_IN_PAGE) <==> !Authorized(path, hasToken))
      && (o == Redirect("/") <==> PublicPath(path) && hasToken)
      && (o == Next <==> Authorized(path, hasToken) && !(PublicPath(path) && hasToken))
  {
    if !Matched(path) then Bypassed
    else if SkippedByWrapper(path) then Next
    else if !Authorized(path, hasToken) then SignIn(SIGN_IN_PAGE)
    else if hasToken && PublicPath(path) then Redirect("/")
    else Next
  }

  /** The login and signup pages are always subject to the middleware. */
  lemma PublicPagesMatched()
    ensures Matched("/login") && Matched("/signup")
  {
    assert !FaviconLike("login");
    assert !FaviconLike("signup");
  }

  /** A protected page without a token is never served: it is sent to the
      sign-in page unless the matcher or the wrapper skips it. */
  lemma ProtectedNeedsToken(path: string)
    requires !PublicPath(path)
    ensures Handle(path, false) in {Bypassed, SignIn(SIGN_IN_PAGE)} || SkippedByWrapper(path)
  {
  }

  /** Only the signup page redirects a signed-in user: the wrapper returns
      before the redirect for the login page, so a signed-in user is shown it. */
  lemma OnlySignupRedirects(path: string, hasToken: bool)
    ensures Handle(path, hasToken) == Redirect("/") <==> path == "/signup" && hasToken
    ensures Handle("/login", hasToken) == Next
  {
    assert !FaviconLike("login");
    assert !FaviconLike("signup");
    assert !StartsWith("/signup", "/_next") by { assert "/signup"[..6][1] != "/_next"[1]; }
    assert !StartsWith("/signup", "/favicon.ico");
    assert !SkippedByWrapper("/signup");
  }

  /** The matcher skips more than the favicon file: any character may stand
      where the "." is. */
  lemma FaviconDotIsWildcard(c: char, tail: string)
    ensures !Matched("/favicon" + [c] + "ico" + tail)
  {
    var p := "/favicon" + [c] + "ico" + tail;
    assert p[1..8] == "favicon" && p[9..12] == "ico";
    assert p[1..][..7] == "favicon";
    assert p[1..][8..11] == "ico";
  }
}
