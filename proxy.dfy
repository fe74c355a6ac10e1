/** The request gate of proxy.ts: which paths are public, and where a
    request goes given whether its session is valid. Signature verification
    of the session token is outside the model: its outcome is an input. */
module Proxy {
  import opened Wrappers

  /** Paths that are public as a whole. */
  const PublicRoutes: seq<string> := ["/login", "/identify"]

  /** Paths that are public with everything that starts with them. */
  const PublicRoutePrefixes: seq<string> := ["/api/auth"]

  /** The shortest signing secret that is used at all. */
  const JwtMinSecretLength: nat := 32

  /** `String.prototype.startsWith`: a plain character prefix, no path
      segment boundary. */
  predicate StartsWith(s: string, prefix: string)
  {
    |prefix| <= |s| && s[..|prefix|] == prefix
  }

  /** `prefixes.some(prefix => pathname.startsWith(prefix))`. */
  predicate AnyPrefixOf(prefixes: seq<string>, pathname: string)
  {
    prefixes != [] && (StartsWith(pathname, prefixes[0]) || AnyPrefixOf(prefixes[1..], pathname))
  }

  /** isPublicRoute: exactly `/login`, exactly `/identify`, or anything whose
      text begins with `/api/auth` (so `/api/authx` as well). */
  function IsPublicRoute(pathname: string): (r: bool)
    ensures r <==> pathname == "/login" || pathname == "/identify"
                   || (|pathname| >= 9 && pathname[..9] == "/api/auth")
  {
    assert PublicRoutePrefixes[1..] == [] && |PublicRoutePrefixes[0]| == 9;
    assert AnyPrefixOf(PublicRoutePrefixes, pathname) <==> StartsWith(pathname, "/api/auth");
    pathname in PublicRoutes || AnyPrefixOf(PublicRoutePrefixes, pathname)
  }

  /** `String.prototype.length`: the number of UTF-16 code units, so a
      character outside the Basic Multilingual Plane counts twice. */
  function Utf16Length(s: string): (n: nat)
    ensures |s| <= n <= 2 * |s|
    ensures (forall k :: 0 <= k < |s| ==> s[k] as int <= 0xFFFF) ==> n == |s|
  {
    if s == [] then 0
    else (if s[0] as int > 0xFFFF then 2 else 1) + Utf16Length(s[1..])
  }

  /** getJWTSecret: a missing secret, or one shorter than the minimum, leaves
      no key to verify with. */
  function SigningSecret(secret: Option<string>): (r: Option<string>)
    ensures r.Some? <==> secret.Some? && Utf16Length(secret.value) >= JwtMinSecretLength
    ensures r.Some? ==> r == secret
  {
    if secret.None? || secret.value == "" || Utf16Length(secret.value) < JwtMinSecretLength then None else secret
  }

  /** Sixteen characters outside the Basic Multilingual Plane are 32 UTF-16
      code units: long enough. */
  lemma AstralSecretIsUsable()
    ensures SigningSecret(Some(seq(16, _ => '\U{1F600}'))).Some?
  {
    var s: string := seq(16, _ => '\U{1F600}');
    assert forall k :: 0 <= k < |s| ==> s[k] as int > 0xFFFF;
    AstralLength(s);
  }

  lemma {:induction false} AstralLength(s: string)
    requires forall k :: 0 <= k < |s| ==> s[k] as int > 0xFFFF
    ensures Utf16Length(s) == 2 * |s|
  {
    if s != [] {
      AstralLength(s[1..]);
    }
  }

  /** Whether the request counts as signed in. `sessionToken` is the session
      cookie, `secret` the configured signing secret, and `signatureValid`
      the outcome of checking the token's signature with that secret. */
  function IsAuthenticated(sessionToken: Option<string>, secret: Option<string>, signatureValid: bool): (r: bool)
    ensures r <==> && sessionToken.Some? && sessionToken.value != ""
                   && secret.Some? && Utf16Length(secret.value) >= JwtMinSecretLength
                   && signatureValid
  {
    if sessionToken.None? || sessionToken.value == "" then false
    else if SigningSecret(secret).None? then false
    else signatureValid
  }

  /** What the gate does with a request. */
  datatype Decision =
    | PassThrough
    | RedirectHome
    | RedirectLogin(returnUrl: string)

  /** The branch table of proxy: a signed-in user is sent home from the
      public pages and let through elsewhere; anybody else is let through
      public pages and sent to the login page, remembering where they were
      going, from everywhere else. */
  function Route(pathname: string, authenticated: bool): (r: Decision)
    ensures authenticated && IsPublicRoute(pathname) ==> r == RedirectHome
    ensures authenticated && !IsPublicRoute(pathname) ==> r == PassThrough
    ensures !authenticated && IsPublicRoute(pathname) ==> r == PassThrough
    ensures !authenticated && !IsPublicRoute(pathname) ==> r == RedirectLogin(pathname)
  {
    if authenticated then
      if IsPublicRoute(pathname) then RedirectHome else PassThrough
    else if IsPublicRoute(pathname) then PassThrough
    else RedirectLogin(pathname)
  }

  /** proxy, with the signature check as an input. */
  function Gate(pathname: string, sessionToken: Option<string>, secret: Option<string>, signatureValid: bool): (r: Decision)
    ensures var signedIn := && sessionToken.Some? && sessionToken.value != ""
                            && secret.Some? && Utf16Length(secret.value) >= JwtMinSecretLength
                            && signatureValid;
      && (r == RedirectHome <==> signedIn && IsPublicRoute(pathname))
      && (r == PassThrough <==> signedIn != IsPublicRoute(pathname))
      && (r.RedirectLogin? <==> !signedIn && !IsPublicRoute(pathname))
      && (r.RedirectLogin? ==> r.returnUrl == pathname)
  {
    Route(pathname, IsAuthenticated(sessionToken, secret, signatureValid))
  }

  /** Without a session cookie, or without a usable secret, every request is
      treated as signed out, whatever the signature check would say. */
  lemma NoTokenOrSecretMeansSignedOut(pathname: string, sessionToken: Option<string>, secret: Option<string>, signatureValid: bool)
    requires sessionToken.None? || secret.None? || Utf16Length(secret.value) < JwtMinSecretLength
    ensures Gate(pathname, sessionToken, secret, signatureValid) == Route(pathname, false)
  {
  }

  /** The redirects do not loop: the login page a signed-out user is sent to
      lets them through, and the home page a signed-in user is sent to lets
      them through. */
  lemma RedirectsSettle(pathname: string, authenticated: bool)
    ensures Route(pathname, false).RedirectLogin? ==> Route("/login", false) == PassThrough
    ensures Route(pathname, true) == RedirectHome ==> Route("/", true) == PassThrough
  {
    assert "/"[..0] == "";
  }

  /** The prefix test is on characters, not path segments. */
  lemma PrefixMatchesPastSegment()
    ensures IsPublicRoute("/api/authx")
    ensures IsPublicRoute("/api/auth/logout")
    ensures !IsPublicRoute("/login/")
  {
    assert "/api/authx"[..9] == "/api/auth";
    assert "/api/auth/logout"[..9] == "/api/auth";
  }
}
