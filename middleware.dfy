/**
 * The session middleware of `lib/supabase/middleware.ts`: which requests are
 * redirected, which pass, which responses carry `X-Robots-Tag`, and how the cookies
 * the auth client refreshes are copied onto the request and the response (forced to
 * `SameSite=None; Secure`).  Requests and responses are objects whose cookie and
 * header maps change in place; the route each request takes is given by the pure
 * function `Outcome`, against which `UpdateSession` is proved.
 */
module Middleware {
  import opened Wrappers
  import JsString

  const ProtectedPaths: seq<string> := ["/map", "/profile"]
  const NoindexPaths: seq<string> := ["/map", "/profile", "/login", "/tg-debug"]
  const DebugPath: string := "/tg-debug"
  const LoginPath: string := "/login"
  const RobotsHeader: string := "X-Robots-Tag"
  const RobotsValue: string := "noindex, nofollow"

  /** The options of a cookie, as far as the middleware touches them. */
  datatype CookieOptions = CookieOptions(sameSite: Option<string>, secure: Option<bool>, httpOnly: Option<bool>,
                                         path: Option<string>, domain: Option<string>, maxAge: Option<int>)

  /** One entry of `cookiesToSet`; `options` may be absent. */
  datatype CookieToSet = CookieToSet(name: string, value: string, options: Option<CookieOptions>)

  /** A cookie as set on a response. */
  datatype StoredCookie = StoredCookie(value: string, options: Option<CookieOptions>)

  /** `NextResponse.next` carries the request's cookies at the time it is made; a redirect carries a location. */
  datatype Kind = Next(forwarded: map<string, string>) | Redirect(location: string)

  /** The incoming request: its path and query are fixed, its cookies can be set. */
  class HttpRequest {
    const pathname: string
    const search: string
    var cookies: map<string, string>

    constructor(pathname: string, search: string, cookies: map<string, string>)
      ensures this.pathname == pathname && this.search == search && this.cookies == cookies
    {
      this.pathname := pathname;
      this.search := search;
      this.cookies := cookies;
    }

    /** `request.cookies.set(name, value)`. */
    method SetCookie(name: string, value: string)
      modifies this
      ensures cookies == old(cookies)[name := value]
    {
      cookies := cookies[name := value];
    }
  }

  /** A response under construction. */
  class HttpResponse {
    const kind: Kind
    var headers: map<string, string>
    var cookies: map<string, StoredCookie>

    /** `NextResponse.next({ request })`. */
    constructor Next(request: HttpRequest)
      ensures kind == Kind.Next(request.cookies) && headers == map[] && cookies == map[]
    {
      kind := Kind.Next(request.cookies);
      headers := map[];
      cookies := map[];
    }

    /** `NextResponse.redirect(location)`. */
    constructor Redirect(location: string)
      ensures kind == Kind.Redirect(location) && headers == map[] && cookies == map[]
    {
      kind := Kind.Redirect(location);
      headers := map[];
      cookies := map[];
    }

    /** `response.headers.set(name, value)`. */
    method SetHeader(name: string, value: string)
      modifies this
      ensures headers == old(headers)[name := value] && cookies == old(cookies)
    {
      headers := headers[name := value];
    }

    /** `response.cookies.set(name, value, options)`: a cookie of the same name is replaced. */
    method SetCookie(name: string, value: string, options: Option<CookieOptions>)
      modifies this
      ensures cookies == old(cookies)[name := StoredCookie(value, options)] && headers == old(headers)
    {
      cookies := cookies[name := StoredCookie(value, options)];
    }
  }

  /** `prefixes.some((p) => path.startsWith(p))`. */
  predicate StartsWithAny(path: string, prefixes: seq<string>) {
    exists i :: 0 <= i < |prefixes| && JsString.StartsWith(path, prefixes[i])
  }

  predicate IsProtected(path: string) {
    StartsWithAny(path, ProtectedPaths)
  }

  /** The paths robots are told not to index. */
  predicate ShouldNoindex(path: string) {
    StartsWithAny(path, NoindexPaths) || JsString.StartsWith(path, "/api/")
  }

  /** `applyNoindex`. */
  method ApplyNoindex(request: HttpRequest, response: HttpResponse)
    modifies response
    ensures response.headers == if ShouldNoindex(request.pathname) then old(response.headers)[RobotsHeader := RobotsValue]
                                 else old(response.headers)
    ensures response.cookies == old(response.cookies)
  {
    if ShouldNoindex(request.pathname) {
      response.SetHeader(RobotsHeader, RobotsValue);
    }
  }

  // ---- Cookies ----

  /** The request cookies after setting each of `cs` in turn. */
  function RequestJar(base: map<string, string>, cs: seq<CookieToSet>): map<string, string> {
    if cs == [] then base else RequestJar(base, cs[..|cs| - 1])[cs[|cs| - 1].name := cs[|cs| - 1].value]
  }

  /** `{ ...options, sameSite: "none", secure: true }`. */
  function Merged(options: Option<CookieOptions>): (r: CookieOptions)
    ensures r.sameSite == Some("none") && r.secure == Some(true)
    ensures options.Some? ==> r == options.value.(sameSite := Some("none"), secure := Some(true))
  {
    var o := options.GetOr(CookieOptions(None, None, None, None, None, None));
    o.(sameSite := Some("none"), secure := Some(true))
  }

  /** The response cookies after setting each of `cs` in turn with merged options. */
  function ResponseJar(cs: seq<CookieToSet>): map<string, StoredCookie> {
    if cs == [] then map[]
    else ResponseJar(cs[..|cs| - 1])[cs[|cs| - 1].name := StoredCookie(cs[|cs| - 1].value, Some(Merged(cs[|cs| - 1].options)))]
  }

  /** The last entry of `cs` named `name`, if any. */
  function LastNamed(cs: seq<CookieToSet>, name: string): (r: Option<CookieToSet>)
    ensures r.Some? ==> r.value in cs && r.value.name == name
    ensures r.None? <==> forall c :: c in cs ==> c.name != name
  {
    if cs == [] then None
    else if cs[|cs| - 1].name == name then Some(cs[|cs| - 1])
    else
      var r := LastNamed(cs[..|cs| - 1], name);
      assert forall c :: c in cs[..|cs| - 1] ==> c in cs;
      assert forall c :: c in cs ==> c in cs[..|cs| - 1] || c == cs[|cs| - 1];
      r
  }

  /**
   * Every cookie the response sets is `SameSite=None; Secure` whatever options came
   * with it; its value, and its other options, are those of the last entry of that name.
   */
  lemma {:induction false} ResponseCookiesSecure(cs: seq<CookieToSet>, name: string)
    ensures name in ResponseJar(cs) <==> LastNamed(cs, name).Some?
    ensures name in ResponseJar(cs) ==>
      var c := LastNamed(cs, name).value;
      ResponseJar(cs)[name] == StoredCookie(c.value, Some(Merged(c.options))) &&
      ResponseJar(cs)[name].options.value.sameSite == Some("none") &&
      ResponseJar(cs)[name].options.value.secure == Some(true)
  {
    if cs != [] {
      ResponseCookiesSecure(cs[..|cs| - 1], name);
    }
  }

  /** The request carries, for each name, the value of the last entry of that name, and keeps its other cookies. */
  lemma {:induction false} RequestCookiesSet(base: map<string, string>, cs: seq<CookieToSet>, name: string)
    ensures LastNamed(cs, name).Some? ==> RequestJar(base, cs) == RequestJar(base, cs)[name := LastNamed(cs, name).value.value]
    ensures LastNamed(cs, name).Some? ==> name in RequestJar(base, cs) && RequestJar(base, cs)[name] == LastNamed(cs, name).value.value
    ensures LastNamed(cs, name).None? ==>
      (name in RequestJar(base, cs) <==> name in base) && (name in base ==> RequestJar(base, cs)[name] == base[name])
  {
    if cs != [] {
      RequestCookiesSet(base, cs[..|cs| - 1], name);
    }
  }

  /**
   * `setAll`: the cookies are set on the request first, a fresh pass-through response
   * is made from the updated request, and the cookies are set on it with merged options.
   */
  method SetAll(request: HttpRequest, cookiesToSet: seq<CookieToSet>) returns (response: HttpResponse)
    modifies request
    ensures fresh(response)
    ensures request.cookies == RequestJar(old(request.cookies), cookiesToSet)
    ensures response.kind == Kind.Next(request.cookies)
    ensures response.headers == map[] && response.cookies == ResponseJar(cookiesToSet)
  {
    ghost var base := request.cookies;
    for i := 0 to |cookiesToSet|
      invariant request.cookies == RequestJar(base, cookiesToSet[..i])
    {
      assert cookiesToSet[..i + 1][..i] == cookiesToSet[..i];
      request.SetCookie(cookiesToSet[i].name, cookiesToSet[i].value);
    }
    assert cookiesToSet[..|cookiesToSet|] == cookiesToSet;
    response := new HttpResponse.Next(request);
    for i := 0 to |cookiesToSet|
      invariant response.kind == Kind.Next(request.cookies) && response.headers == map[]
      invariant response.cookies == ResponseJar(cookiesToSet[..i])
    {
      assert cookiesToSet[..i + 1][..i] == cookiesToSet[..i];
      response.SetCookie(cookiesToSet[i].name, cookiesToSet[i].value, Some(Merged(cookiesToSet[i].options)));
    }
  }

  // ---- Routing ----

  /** The environment the middleware reads. */
  datatype Env = Env(
    production: bool,      // `NODE_ENV === "production"`
    devTestMode: bool,     // `NEXT_PUBLIC_DEV_TEST_MODE === "true"`
    hasUrl: bool,          // `NEXT_PUBLIC_SUPABASE_URL` is set and non-empty
    hasAnonKey: bool)      // `NEXT_PUBLIC_SUPABASE_ANON_KEY` likewise

  /** Where a request goes: a redirect, or through, with or without the auth check. */
  datatype Route = Redirected(location: string) | Passed(authChecked: bool)

  /** `updateSession`'s decision, given whether the auth check finds a user. */
  function Outcome(path: string, search: string, env: Env, user: bool): Route {
    if path == DebugPath && (env.production || !env.devTestMode) then Redirected("/")
    else if env.devTestMode then Passed(false)
    else if !env.hasUrl || !env.hasAnonKey then Passed(false)
    else if !user && IsProtected(path) then Redirected(LoginPath + search)
    else Passed(true)
  }

  /** The debug page is hidden in production and outside dev test mode, before any bypass. */
  lemma DebugPageHidden(search: string, env: Env, user: bool)
    ensures Outcome(DebugPath, search, env, user) == Redirected("/") <==> env.production || !env.devTestMode
  {
  }

  /** Dev test mode or a missing Supabase configuration lets every other request through unchecked. */
  lemma BypassWithoutAuth(path: string, search: string, env: Env, user: bool)
    requires path != DebugPath
    requires env.devTestMode || !env.hasUrl || !env.hasAnonKey
    ensures Outcome(path, search, env, user) == Passed(false)
  {
  }

  /** With auth configured, a request is sent to the login page exactly when it is anonymous and under `/map` or `/profile`. */
  lemma ProtectedNeedsUser(path: string, search: string, env: Env, user: bool)
    requires !env.devTestMode && env.hasUrl && env.hasAnonKey && path != DebugPath
    ensures Outcome(path, search, env, user).Redirected? <==> !user && IsProtected(path)
    ensures Outcome(path, search, env, user).Redirected? ==> Outcome(path, search, env, user).location == LoginPath + search
  {
  }

  /** Prefix matching is plain: `/mapping` is protected like `/map`. */
  lemma PrefixIsPlain()
    ensures IsProtected("/mapping") && !IsProtected("/") && ShouldNoindex("/api/x") && !ShouldNoindex("/api")
  {
    assert JsString.StartsWith("/mapping", ProtectedPaths[0]);
    assert JsString.StartsWith("/api/x", "/api/");
    assert "/api"[..4][1] != "/map"[1];
    assert !JsString.StartsWith("/api", NoindexPaths[1]) && !JsString.StartsWith("/api", NoindexPaths[2]);
    assert !JsString.StartsWith("/api", NoindexPaths[3]);
  }

  /**
   * `updateSession`.  The auth client may refresh the session while the user is read,
   * calling `setAll` with `refresh`; whether it finds a user is `user`.
   */
  method UpdateSession(request: HttpRequest, env: Env, refresh: Option<seq<CookieToSet>>, user: bool)
    returns (response: HttpResponse)
    modifies request
    ensures fresh(response)
    ensures var route := Outcome(request.pathname, request.search, env, user);
      (route.Redirected? ==> response.kind == Kind.Redirect(route.location)) &&
      (route.Passed? ==> response.kind == Kind.Next(request.cookies)) &&
      response.headers == (if route.Passed? && ShouldNoindex(request.pathname) then map[RobotsHeader := RobotsValue] else map[]) &&
      response.cookies == (if route == Passed(true) && refresh.Some? then ResponseJar(refresh.value) else map[])
    ensures var refreshed := Outcome(request.pathname, request.search, env, user) != Redirected("/") &&
                             !env.devTestMode && env.hasUrl && env.hasAnonKey && refresh.Some?;
      request.cookies == if refreshed then RequestJar(old(request.cookies), refresh.value) else old(request.cookies)
  {
    if request.pathname == DebugPath && (env.production || !env.devTestMode) {
      response := new HttpResponse.Redirect("/");
      return;
    }
    if env.devTestMode || !env.hasUrl || !env.hasAnonKey {
      response := new HttpResponse.Next(request);
      ApplyNoindex(request, response);
      return;
    }
    var supabaseResponse := new HttpResponse.Next(request);
    if refresh.Some? {
      supabaseResponse := SetAll(request, refresh.value);
    }
    if !user && IsProtected(request.pathname) {
      response := new HttpResponse.Redirect(LoginPath + request.search);
      return;
    }
    response := supabaseResponse;
    ApplyNoindex(request, response);
  }
}
