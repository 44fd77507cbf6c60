/** The application shell: where a deep link that opens the app leads, and
    which screen the router shows while and after the auth state loads. */
module AppShell {
  import opened Common
  import opened JsStrings

  // ---------------------------------------------------------------------------
  // Deep links

  /** The `appUrlOpen` test: the URL looks like a sign-in callback. */
  predicate IsAuthCallback(url: string) {
    Includes(url, "/auth") || Includes(url, "/callback") || Includes(url, "#access_token=")
  }

  const ProfilePath := "/tabs/profile"

  /** Where the listener sends the app: nowhere for other links; for a callback
      the profile page, with the URL's fragment from its first '#' on appended
      when there is one. */
  function DeepLinkTarget(url: string): (r: Option<string>)
    ensures r.None? <==> !IsAuthCallback(url)
    ensures r.Some? && '#' !in url ==> r.value == ProfilePath
    ensures r.Some? && '#' in url ==>
      exists i :: 0 <= i < |url| && url[i] == '#' && '#' !in url[..i] && r.value == ProfilePath + url[i..]
  {
    if !IsAuthCallback(url) then None
    else
      var hashIndex := IndexOf(url, '#');
      if hashIndex != -1 then Some(ProfilePath + url[hashIndex..])
      else Some(ProfilePath)
  }

  /** A deep link never leaves the profile page: the target is the profile path,
      possibly followed by a fragment. */
  lemma DeepLinkStaysOnProfile(url: string)
    requires DeepLinkTarget(url).Some?
    ensures var t := DeepLinkTarget(url).value;
      ProfilePath <= t && (|t| == |ProfilePath| || t[|ProfilePath|] == '#')
  {
  }

  /** A link carrying an access token always keeps its fragment, so the token
      reaches the profile page. */
  lemma AccessTokenKeepsFragment(url: string)
    requires Includes(url, "#access_token=")
    ensures DeepLinkTarget(url).Some?
    ensures exists i :: 0 <= i < |url| && url[i] == '#' && DeepLinkTarget(url).value == ProfilePath + url[i..]
  {
    var k: nat :| OccursAt(url, "#access_token=", k);
    assert url[k..k + 14][0] == '#';
    assert url[k] == '#';
  }

  // ---------------------------------------------------------------------------
  // Routes

  /** What the router renders. */
  datatype Screen = Spinner | LoginPage | TabsPage | Redirect(to: string) | NoScreen

  /** A non-exact route matches its path and everything below it. */
  predicate RouteMatches(path: string, route: string) {
    route <= path && (|path| == |route| || path[|route|] == '/')
  }

  /** `AppRoutes`: a spinner while auth loads; then "/login", "/tabs" and the
      exact "/" that redirects to the studio, first match first. */
  function Route(authLoading: bool, path: string): (r: Screen)
    ensures authLoading <==> r.Spinner?
    ensures r.LoginPage? ==> RouteMatches(path, "/login")
    ensures r.TabsPage? ==> RouteMatches(path, "/tabs")
    ensures r.Redirect? ==> path == "/"
    ensures !authLoading && RouteMatches(path, "/login") ==> r == LoginPage
    ensures !authLoading && !RouteMatches(path, "/login") && RouteMatches(path, "/tabs") ==> r == TabsPage
    ensures !authLoading && path == "/" ==> r == Redirect("/tabs/studio")
  {
    if authLoading then Spinner
    else if RouteMatches(path, "/login") then LoginPage
    else if RouteMatches(path, "/tabs") then TabsPage
    else if path == "/" then Redirect("/tabs/studio")
    else NoScreen
  }

  /** Once auth has loaded, "/" leads to the studio, and the studio path is
      served by the tabs without a further redirect. */
  lemma RootReachesStudio()
    ensures Route(false, "/") == Redirect("/tabs/studio")
    ensures Route(false, "/tabs/studio") == TabsPage
  {
    assert !RouteMatches("/", "/login") && !RouteMatches("/", "/tabs");
    assert !RouteMatches("/tabs/studio", "/login");
    assert "/tabs/studio"[..5] == "/tabs";
  }
}
