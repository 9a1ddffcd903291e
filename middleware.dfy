/**
 * The request middleware that issues the guest cookie, and the path matcher that decides
 * which requests it runs on. A request with an auth session token, or with a guest cookie
 * already, passes through untouched; any other request gets a fresh `guest_session_id`.
 */
module Middleware {
  import opened Common
  import opened Identity

  const AUTH_COOKIE := "authjs.session-token"
  const SECURE_AUTH_COOKIE := "__Secure-authjs.session-token"
  const GUEST_PREFIX := "guest_"
  /** Thirty days, in seconds. */
  const GUEST_COOKIE_MAX_AGE: int := 30 * 24 * 60 * 60

  /** The attributes a `Set-Cookie` carries. */
  datatype CookieOptions = CookieOptions(httpOnly: bool, secure: bool, sameSite: string, maxAge: int, path: string)

  /** One cookie set on the response. */
  datatype SetCookie = SetCookie(name: string, value: string, options: CookieOptions)

  /**
   * The auth token: the `authjs.session-token` value if that cookie is present, else the
   * `__Secure-authjs.session-token` value (`??` falls through only on a missing cookie).
   */
  function AuthToken(req: CookieJar): (t: Option<string>)
    ensures AUTH_COOKIE in req ==> t == Some(req[AUTH_COOKIE])
    ensures AUTH_COOKIE !in req ==> t == CookieValue(req, SECURE_AUTH_COOKIE)
  {
    match CookieValue(req, AUTH_COOKIE)
    case Some(v) => Some(v)
    case None => CookieValue(req, SECURE_AUTH_COOKIE)
  }

  /** The request counts as authenticated when the auth token is truthy. */
  predicate HasAuthToken(req: CookieJar)
  {
    Truthy(AuthToken(req))
  }

  /** Either non-empty session-token cookie marks the request as authenticated, unless an empty plain one hides the secure one. */
  lemma HasAuthTokenCases(req: CookieJar)
    ensures HasAuthToken(req) <==>
      (AUTH_COOKIE in req && req[AUTH_COOKIE] != "") ||
      (AUTH_COOKIE !in req && SECURE_AUTH_COOKIE in req && req[SECURE_AUTH_COOKIE] != "")
  {
  }

  /** The attributes of the issued guest cookie. */
  function GuestCookieOptions(nodeEnv: string): (o: CookieOptions)
    ensures o.httpOnly && o.sameSite == "lax" && o.path == "/"
    ensures o.maxAge == 2592000
    ensures o.secure <==> nodeEnv == "production"
  {
    CookieOptions(true, nodeEnv == "production", "lax", GUEST_COOKIE_MAX_AGE, "/")
  }

  /**
   * The cookie the middleware sets, if any, for a request with cookies `req`, the process's
   * `NODE_ENV`, and `uuid` the fresh token the generator returns for this request.
   */
  function IssuedCookie(req: CookieJar, nodeEnv: string, uuid: string): (c: Option<SetCookie>)
    ensures c.Some? <==> !HasAuthToken(req) && !Truthy(GetGuestSessionId(req))
    ensures c.Some? ==> c.value.name == GUEST_COOKIE && c.value.value == GUEST_PREFIX + uuid
    ensures c.Some? ==> c.value.options == GuestCookieOptions(nodeEnv)
  {
    if HasAuthToken(req) then None
    else if Truthy(GetGuestSessionId(req)) then None
    else Some(SetCookie(GUEST_COOKIE, GUEST_PREFIX + uuid, GuestCookieOptions(nodeEnv)))
  }

  /** The cookies the client sends next, once it has stored what the response set. */
  function StoreCookie(req: CookieJar, c: Option<SetCookie>): CookieJar
  {
    if c.Some? then req[c.value.name := c.value.value] else req
  }

  /** Issuing is idempotent: after the client stores the issued cookie, the next request is left alone. */
  lemma IssueOnce(req: CookieJar, nodeEnv: string, uuid: string, nextUuid: string)
    ensures var next := StoreCookie(req, IssuedCookie(req, nodeEnv, uuid));
      IssuedCookie(next, nodeEnv, nextUuid) == None
  {
    var c := IssuedCookie(req, nodeEnv, uuid);
    if c.Some? {
      var next := StoreCookie(req, c);
      assert next[GUEST_COOKIE] == GUEST_PREFIX + uuid;
      assert AuthToken(next) == AuthToken(req);
    }
  }

  /** An empty `authjs.session-token` cookie hides a real `__Secure-` token, and a guest cookie is issued. */
  lemma EmptyPlainTokenHidesSecureToken(nodeEnv: string, uuid: string)
    ensures var req := map[AUTH_COOKIE := "", SECURE_AUTH_COOKIE := "token"];
      !HasAuthToken(req) && IssuedCookie(req, nodeEnv, uuid).Some?
  {
    var req := map[AUTH_COOKIE := "", SECURE_AUTH_COOKIE := "token"];
    assert GUEST_COOKIE !in req;
  }

  /** The response object; `cookies` holds the `Set-Cookie` entries it carries, by name. */
  class Response {
    var cookies: map<string, SetCookie>

    /** `NextResponse.next()`: pass the request on, setting nothing. */
    constructor Next()
      ensures cookies == map[]
    {
      cookies := map[];
    }

    /** `response.cookies.set(...)`: a later set of the same name replaces an earlier one. */
    method Set(c: SetCookie)
      modifies this
      ensures cookies == old(cookies)[c.name := c]
    {
      cookies := cookies[c.name := c];
    }
  }

  /** `middleware(req)`: the response sets the guest cookie exactly when `IssuedCookie` says so, and nothing else. */
  method HandleRequest(req: CookieJar, nodeEnv: string, uuid: string) returns (response: Response)
    ensures fresh(response)
    ensures var c := IssuedCookie(req, nodeEnv, uuid);
      response.cookies == if c.Some? then map[GUEST_COOKIE := c.value] else map[]
  {
    response := new Response.Next();
    var authToken := AuthToken(req);
    if Truthy(authToken) {
      return;
    }
    var existingGuest := GetGuestSessionId(req);
    if !Truthy(existingGuest) {
      var guestId := GUEST_PREFIX + uuid;
      response.Set(SetCookie(GUEST_COOKIE, guestId, GuestCookieOptions(nodeEnv)));
    }
  }

  // ---- The path matcher `/((?!_next/static|_next/image|favicon.ico|.*\.(?:svg|png|jpg|jpeg|gif|webp)$).*)`

  const STATIC_EXTENSIONS: seq<string> := ["svg", "png", "jpg", "jpeg", "gif", "webp"]

  /** The characters a regular-expression `.` does not match. */
  predicate IsLineTerminator(c: char)
  {
    c == '\n' || c == '\r' || c == '\U{2028}' || c == '\U{2029}'
  }

  predicate NoLineTerminator(s: string)
  {
    forall i :: 0 <= i < |s| ==> !IsLineTerminator(s[i])
  }

  predicate EndsWith(s: string, suffix: string)
  {
    |suffix| <= |s| && s[|s| - |suffix|..] == suffix
  }

  /** `favicon.ico` in the pattern: its `.` is unescaped, so any one character but a line terminator fits there. */
  predicate FaviconLike(s: string)
  {
    |s| >= 11 && s[..7] == "favicon" && !IsLineTerminator(s[7]) && s[8..11] == "ico"
  }

  predicate HasStaticExtension(s: string)
  {
    exists i :: 0 <= i < |STATIC_EXTENSIONS| && EndsWith(s, "." + STATIC_EXTENSIONS[i])
  }

  /** The negative lookahead: what may not follow the leading slash. */
  predicate Excluded(rest: string)
  {
    "_next/static" <= rest || "_next/image" <= rest || FaviconLike(rest) || HasStaticExtension(rest)
  }

  /** The whole pathname matches the pattern: a slash, then a rest the lookahead allows and `.*` spans. */
  predicate MatcherHandles(path: string)
  {
    |path| >= 1 && path[0] == '/' && NoLineTerminator(path[1..]) && !Excluded(path[1..])
  }

  /** API routes, the auth routes among them, are handled by the middleware whatever the pattern's comment says. */
  lemma ApiRoutesHandled(path: string)
    requires "/api/" <= path
    requires NoLineTerminator(path) && !HasStaticExtension(path)
    ensures MatcherHandles(path)
  {
    var rest := path[1..];
    assert rest[0] == 'a';
    forall suffix | EndsWith(rest, suffix)
      ensures EndsWith(path, suffix)
    {
      assert rest[|rest| - |suffix|..] == path[|path| - |suffix|..];
    }
  }

  /** A path's rest after the slash ends in a non-empty suffix exactly when the path does. */
  lemma EndsWithRest(path: string, suffix: string)
    requires |path| >= 1 && path[0] == '/' && |suffix| > 0 && suffix[0] != '/'
    ensures EndsWith(path[1..], suffix) <==> EndsWith(path, suffix)
  {
    var rest := path[1..];
    if |suffix| <= |rest| {
      assert rest[|rest| - |suffix|..] == path[|path| - |suffix|..];
    }
  }

  /** Every path under `/_next/static` or `/_next/image`, and every icon-like path, is skipped. */
  lemma FrameworkPrefixSkipped(path: string)
    requires "/_next/static" <= path || "/_next/image" <= path
          || (|path| >= 1 && FaviconLike(path[1..]))
    ensures !MatcherHandles(path)
  {
    if "/_next/static" <= path {
      assert path[1..][..12] == "/_next/static"[1..];
    } else if "/_next/image" <= path {
      assert path[1..][..11] == "/_next/image"[1..];
    }
  }

  /** Every path ending in one of the image extensions is skipped, wherever it lies. */
  lemma StaticExtensionSkipped(path: string, i: nat)
    requires i < |STATIC_EXTENSIONS| && EndsWith(path, "." + STATIC_EXTENSIONS[i])
    ensures !MatcherHandles(path)
  {
    if |path| >= 1 && path[0] == '/' {
      EndsWithRest(path, "." + STATIC_EXTENSIONS[i]);
    }
  }

  /**
   * The matcher in terms of the whole pathname: it handles exactly the slash-led paths without a
   * line terminator that are not under `/_next/static` or `/_next/image`, not icon-like, and do not
   * end in an image extension.
   */
  lemma MatcherHandlesExactly(path: string)
    ensures MatcherHandles(path)
        <==> |path| >= 1 && path[0] == '/' && NoLineTerminator(path[1..])
             && !("/_next/static" <= path) && !("/_next/image" <= path)
             && !FaviconLike(path[1..]) && !HasStaticExtension(path)
  {
    if |path| >= 1 && path[0] == '/' {
      var rest := path[1..];
      if "_next/static" <= rest {
        assert path[..13] == "/" + rest[..12];
      }
      if "_next/image" <= rest {
        assert path[..12] == "/" + rest[..11];
      }
      if "/_next/static" <= path {
        FrameworkPrefixSkipped(path);
      }
      if "/_next/image" <= path {
        FrameworkPrefixSkipped(path);
      }
      forall i | 0 <= i < |STATIC_EXTENSIONS|
        ensures EndsWith(rest, "." + STATIC_EXTENSIONS[i]) <==> EndsWith(path, "." + STATIC_EXTENSIONS[i])
      {
        EndsWithRest(path, "." + STATIC_EXTENSIONS[i]);
      }
    }
  }

  /** A string ending in a suffix ends in that suffix's last character. */
  lemma EndsWithLast(s: string, suffix: string)
    requires EndsWith(s, suffix) && |suffix| > 0
    ensures s[|s| - 1] == suffix[|suffix| - 1]
  {
    assert s[|s| - |suffix|..][|suffix| - 1] == s[|s| - 1];
  }

  /** Framework files and the icon are skipped; the icon's dot matches any character. */
  lemma FrameworkPathsSkipped()
    ensures !MatcherHandles("/_next/static/chunk.js")
    ensures !MatcherHandles("/_next/image")
    ensures !MatcherHandles("/favicon.ico")
    ensures !MatcherHandles("/favicon-ico")
  {
    assert "_next/static" <= "/_next/static/chunk.js"[1..];
    assert "_next/image" <= "/_next/image"[1..];
    assert FaviconLike("/favicon.ico"[1..]);
    assert FaviconLike("/favicon-ico"[1..]);
  }

  /** Image files are skipped by their extension. */
  lemma ImagePathSkipped()
    ensures !MatcherHandles("/images/logo.png")
  {
    var rest := "/images/logo.png"[1..];
    assert rest[|rest| - 4..] == ".png";
    assert EndsWith(rest, "." + STATIC_EXTENSIONS[1]);
  }

  /** An application page is handled. */
  lemma PagePathHandled()
    ensures MatcherHandles("/dashboard")
  {
    var rest := "/dashboard"[1..];
    assert rest == "dashboard";
    forall i | 0 <= i < |STATIC_EXTENSIONS| && EndsWith(rest, "." + STATIC_EXTENSIONS[i])
      ensures false
    {
      EndsWithLast(rest, "." + STATIC_EXTENSIONS[i]);
    }
    assert !FaviconLike(rest);
  }
}
