/**
 * The session middleware of `gpt_revue/lib/supabase/middleware.ts`.  It differs from
 * `Middleware` in two ways: there is no debug-page check, and refreshed cookies are
 * set on the response with the options the auth client gave, unchanged.  The path
 * lists, `applyNoindex` and the request and response objects are those of `Middleware`.
 */
module MiddlewareRevue {
  import opened Wrappers
  import opened Middleware
  import JsString

  /** The response cookies after setting each of `cs` in turn with its own options. */
  function PlainJar(cs: seq<CookieToSet>): map<string, StoredCookie> {
    if cs == [] then map[]
    else PlainJar(cs[..|cs| - 1])[cs[|cs| - 1].name := StoredCookie(cs[|cs| - 1].value, cs[|cs| - 1].options)]
  }

  /** Every cookie the response sets is the last entry of its name, options and all. */
  lemma {:induction false} ResponseCookiesAsGiven(cs: seq<CookieToSet>, name: string)
    ensures name in PlainJar(cs) <==> LastNamed(cs, name).Some?
    ensures name in PlainJar(cs) ==>
      PlainJar(cs)[name] == StoredCookie(LastNamed(cs, name).value.value, LastNamed(cs, name).value.options)
  {
    if cs != [] {
      ResponseCookiesAsGiven(cs[..|cs| - 1], name);
    }
  }

  /** A cookie refreshed with `SameSite=Lax` keeps it here, where `Middleware` forces `None`. */
  lemma CookieOptionsDiffer(name: string, value: string)
    ensures var o := CookieOptions(Some("lax"), Some(false), None, None, None, None);
      var cs := [CookieToSet(name, value, Some(o))];
      PlainJar(cs)[name].options == Some(o) &&
      ResponseJar(cs)[name].options.value.sameSite == Some("none")
  {
    var o := CookieOptions(Some("lax"), Some(false), None, None, None, None);
    var cs := [CookieToSet(name, value, Some(o))];
    assert cs[..0] == [];
  }

  /** `setAll`: as in `Middleware`, but the options are passed through. */
  method SetAll(request: HttpRequest, cookiesToSet: seq<CookieToSet>) returns (response: HttpResponse)
    modifies request
    ensures fresh(response)
    ensures request.cookies == RequestJar(old(request.cookies), cookiesToSet)
    ensures response.kind == Kind.Next(request.cookies)
    ensures response.headers == map[] && response.cookies == PlainJar(cookiesToSet)
  {
    ghost var base := request.cookies;
    for i := 0 to |cookiesToSet|
      invariant request.cookies == RequestJar(base, cookiesToSet[..i])
    {
      assert cookiesToSet[..i + 1][..i] == cookiesToSet[..i];
      request.SetCookie(cookiesToSet[i].name, cookiesToSet[i].value);
    }
    assert cookiesToSet[..|cookiesToSet|] == cookiesToSet;
    response := new HttpResponse.Next(request);
    for i := 0 to |cookiesToSet|
      invariant response.kind == Kind.Next(request.cookies) && response.headers == map[]
      invariant response.cookies == PlainJar(cookiesToSet[..i])
    {
      assert cookiesToSet[..i + 1][..i] == cookiesToSet[..i];
      response.SetCookie(cookiesToSet[i].name, cookiesToSet[i].value, cookiesToSet[i].options);
    }
  }

  /** `updateSession`'s decision. */
  function Outcome(path: string, search: string, env: Env, user: bool): Route {
    if env.devTestMode then Passed(false)
    else if !env.hasUrl || !env.hasAnonKey then Passed(false)
    else if !user && IsProtected(path) then Redirected(LoginPath + search)
    else Passed(true)
  }

  /** On every path but the debug page both middlewares route alike. */
  lemma AgreesBesideDebugPage(path: string, search: string, env: Env, user: bool)
    requires path != DebugPath
    ensures Outcome(path, search, env, user) == Middleware.Outcome(path, search, env, user)
  {
  }

  /** The debug page is never redirected here, in production included. */
  lemma DebugPageServed(search: string, env: Env, user: bool)
    ensures Outcome(DebugPath, search, env, user).Passed?
  {
    assert !JsString.StartsWith(DebugPath, ProtectedPaths[0]) by {
      assert DebugPath[..4][1] != ProtectedPaths[0][1];
    }
    assert !JsString.StartsWith(DebugPath, ProtectedPaths[1]) by {
      assert DebugPath[..8][1] != ProtectedPaths[1][1];
    }
  }

  /** Dev test mode, or a missing configuration, passes every request through without a check. */
  lemma BypassWithoutAuth(path: string, search: string, env: Env, user: bool)
    requires env.devTestMode || !env.hasUrl || !env.hasAnonKey
    ensures Outcome(path, search, env, user) == Passed(false)
  {
  }

  /** `updateSession`. */
  method UpdateSession(request: HttpRequest, env: Env, refresh: Option<seq<CookieToSet>>, user: bool)
    returns (response: HttpResponse)
    modifies request
    ensures fresh(response)
    ensures var route := Outcome(request.pathname, request.search, env, user);
      (route.Redirected? ==> response.kind == Kind.Redirect(route.location)) &&
      (route.Passed? ==> response.kind == Kind.Next(request.cookies)) &&
      response.headers == (if route.Passed? && ShouldNoindex(request.pathname) then map[RobotsHeader := RobotsValue] else map[]) &&
      response.cookies == (if route == Passed(true) && refresh.Some? then PlainJar(refresh.value) else map[])
    ensures var refreshed := !env.devTestMode && env.hasUrl && env.hasAnonKey && refresh.Some?;
      request.cookies == if refreshed then RequestJar(old(request.cookies), refresh.value) else old(request.cookies)
  {
    if env.devTestMode || !env.hasUrl || !env.hasAnonKey {
      response := new HttpResponse.Next(request);
      ApplyNoindex(request, response);
      return;
    }
    var supabaseResponse := new HttpResponse.Next(request);
    if refresh.Some? {
      supabaseResponse := SetAll(request, refresh.value);
    }
    if !user && IsProtected(request.pathname) {
      response := new HttpResponse.Redirect(LoginPath + request.search);
      return;
    }
    response := supabaseResponse;
    ApplyNoindex(request, response);
  }
}
