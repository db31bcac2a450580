/**
 Where a page request ends up: the proxy, the root layout and the pages each may redirect, and
 the browser follows until something renders.
 */
module Navigation {
  import opened Options
  import opened Text

  datatype Session = Session(isAdmin: bool, accessibleSites: nat)

  /** A stored site; accessible says whether the session's groups list it, isDefault whether it is the chosen default. */
  datatype Site = Site(slug: string, enabled: bool, accessible: bool, isDefault: bool)

  /** What one browser brings and finds, a cookie with the site it used last among it; nothing changes while it follows redirects. */
  datatype Visit = Visit(
    userCount: nat,
    session: Option<Session>,
    sites: seq<Site>,
    lastSite: Option<string>,
    hasCookie: bool,
    hasBearer: bool)
  {
    /**
     A session belongs to an existing user and was opened by a cookie or a bearer token; it counts
     every site its groups list. Slugs are path segments, each of one site.
     */
    predicate Consistent() {
      && (session.Some? ==> userCount > 0 && (hasCookie || hasBearer))
      && (session.Some? ==> forall i :: 0 <= i < |sites| && sites[i].accessible ==> session.value.accessibleSites > 0)
      && (forall i :: 0 <= i < |sites| ==> sites[i].slug != "" && Lacks(sites[i].slug, '/'))
      && (forall i, j :: 0 <= i < j < |sites| ==> sites[i].slug != sites[j].slug)
    }

    predicate AnyEnabled() {
      exists i :: 0 <= i < |sites| && sites[i].enabled
    }
  }

  datatype Response = Render | Redirect(path: string)

  const HOME := "/"
  const LOGIN := "/login"
  const SETUP := "/setup"
  const NO_ACCESS := "/no-access"
  const DEMO := "/hero-demo"
  const FORGOT := "/forgot-password"
  const RESET := "/reset-password"

  // ---- The proxy ----

  /** A file extension at the end of the last segment. */
  predicate HasExtension(path: string) {
    exists i :: 0 <= i < |path| - 1 && path[i] == '.' && forall j :: i < j < |path| ==> path[j] != '/'
  }

  predicate IsPublicPage(path: string) {
    path == FORGOT || path == DEMO || path == LOGIN || path == RESET || path == SETUP
  }

  predicate NeedsSessionCookie(v: Visit, path: string) {
    && !(IsPublicPage(path) || path == "/api" || StartsWith(path, "/api/") || StartsWith(path, "/auth/sso/")
         || StartsWith(path, "/_next/") || HasExtension(path))
    && !v.hasBearer && !v.hasCookie
  }

  // ---- The root layout ----

  predicate IsPublicPath(path: string) {
    path == FORGOT || path == LOGIN || path == RESET || path == SETUP
  }

  function Layout(v: Visit, path: string): Response {
    if v.userCount == 0 && path != SETUP then Redirect(SETUP)
    else if v.userCount > 0 && path == SETUP then Redirect(if v.session.Some? then HOME else LOGIN)
    else if path == DEMO then Render
    else if IsPublicPath(path) then (if v.session.Some? then Redirect(HOME) else Render)
    else if v.session.None? then Redirect(LOGIN)
    else Render
  }

  // ---- The pages ----

  predicate HasAccess(s: Session) {
    s.isAdmin || s.accessibleSites > 0
  }

  function HomePage(v: Visit): Response {
    if v.session.None? then Redirect(LOGIN)
    else if !v.AnyEnabled() then Redirect(SETUP)
    else if !HasAccess(v.session.value) then Redirect(NO_ACCESS)
    else Render
  }

  function NoAccessPage(v: Visit): Response {
    if v.session.None? then Redirect(LOGIN)
    else if HasAccess(v.session.value) then Redirect(HOME)
    else Render
  }

  const SITES := "/sites/"

  /** The site segment of a path below /sites/. */
  function SiteSlug(path: string): Option<string> {
    if !StartsWith(path, SITES) then None
    else
      var rest := path[|SITES|..];
      var slug := if IndexOf(rest, '/') < 0 then rest else rest[..IndexOf(rest, '/')];
      if slug == "" then None else Some(slug)
  }

  /** The first site with the property, or -1. */
  function First(sites: seq<Site>, p: Site -> bool): (r: int)
    ensures -1 <= r < |sites|
    ensures r >= 0 ==> p(sites[r])
    ensures forall i :: 0 <= i < |sites| && (r < 0 || i < r) ==> !p(sites[i])
  {
    if sites == [] then -1
    else if p(sites[0]) then 0
    else
      var rest := First(sites[1..], p);
      assert forall i :: 1 <= i < |sites| ==> sites[i] == sites[1..][i - 1];
      if rest < 0 then -1 else rest + 1
  }

  function FindSite(sites: seq<Site>, slug: string): (r: int)
    ensures -1 <= r < |sites|
  {
    First(sites, (s: Site) => s.slug == slug)
  }

  /** The first enabled site the session may open, or -1. */
  function Landing(sites: seq<Site>): (r: int)
    ensures -1 <= r < |sites|
  {
    First(sites, (s: Site) => s.enabled && s.accessible)
  }

  /** The chosen default site when it is enabled, else the first enabled one, or -1. */
  function DefaultSite(sites: seq<Site>): (r: int)
    ensures -1 <= r < |sites|
  {
    var chosen := First(sites, (s: Site) => s.isDefault && s.enabled);
    if chosen >= 0 then chosen else First(sites, (s: Site) => s.enabled)
  }

  predicate MayOpen(v: Visit, i: nat)
    requires i < |v.sites|
  {
    v.session.Some? && (v.session.value.isAdmin || v.sites[i].accessible)
  }

  /** The layout of a site's pages; an unknown or disabled site renders the not-found page. */
  function SiteLayout(v: Visit, slug: string): Response {
    var i, landing := FindSite(v.sites, slug), Landing(v.sites);
    if i < 0 || !v.sites[i].enabled then Render
    else if v.session.None? then Redirect(LOGIN)
    else if MayOpen(v, i) then Render
    else if landing >= 0 then Redirect(SITES + v.sites[landing].slug)
    else Redirect(HOME)
  }

  /** The guard at the head of a site's page: it looks at the session first. */
  function SiteGuard(v: Visit, slug: string): Response {
    if v.session.None? then Redirect(LOGIN) else SiteLayout(v, slug)
  }

  // ---- Pages without a site in their path ----

  predicate OneSegment(path: string, prefix: string) {
    StartsWith(path, prefix) && |prefix| < |path| && Lacks(path[|prefix|..], '/')
  }

  predicate TwoSegments(path: string, prefix: string) {
    && StartsWith(path, prefix)
    && exists k :: |prefix| < k < |path| - 1 && path[k] == '/' && Lacks(path[|prefix|..k], '/') && Lacks(path[k + 1..], '/')
  }

  /** The pages that only lead on to the same page of a site. */
  predicate IsShortcut(path: string) {
    || path == "/alerts" || path == "/backups" || path == "/cve-scanner" || path == "/deployments" || path == "/images"
    || path == "/iso-images" || path == "/settings" || path == "/tags" || path == "/templates"
    || OneSegment(path, "/deployments/") || OneSegment(path, "/tags/") || OneSegment(path, "/templates/")
    || OneSegment(path, "/templates/vm/") || TwoSegments(path, "/images/")
  }

  /** The site such a page leads to: the one used last, else the session's first one or the default. */
  function ResolveSlug(v: Visit): Option<string> {
    var last := if v.lastSite.Some? && v.lastSite.value != "" then FindSite(v.sites, v.lastSite.value) else -1;
    if last >= 0 && v.sites[last].enabled && (v.session.None? || MayOpen(v, last)) then Some(v.sites[last].slug)
    else
      var i := if v.session.Some? && !v.session.value.isAdmin then Landing(v.sites) else DefaultSite(v.sites);
      if i >= 0 then Some(v.sites[i].slug) else None
  }

  function ShortcutPage(v: Visit, path: string): Response {
    match ResolveSlug(v)
    case Some(slug) => Redirect(SITES + slug + path)
    case None => Redirect(SETUP)
  }

  /** Any other page may insist on a login, or on an administrator. */
  function OtherPage(v: Visit): set<Response> {
    {Render}
    + if v.session.None? then {Redirect(LOGIN)} else if v.session.value.isAdmin then {} else {Redirect(HOME)}
  }

  /** An enabled site with the slug is open to the session. */
  predicate OpensSlug(v: Visit, slug: string) {
    var i := FindSite(v.sites, slug);
    i >= 0 && v.sites[i].enabled && MayOpen(v, i)
  }

  /** Below a site, its layout and the guard come before what the page itself asks for. */
  function SitePages(v: Visit, slug: string): set<Response> {
    {SiteLayout(v, slug), SiteGuard(v, slug)} + if OpensSlug(v, slug) then OtherPage(v) else {}
  }

  function Pages(v: Visit, path: string): set<Response> {
    if path == HOME then {HomePage(v)}
    else if path == NO_ACCESS then {NoAccessPage(v)}
    else if IsPublicPage(path) then {Render}
    else if IsShortcut(path) then {ShortcutPage(v, path)}
    else match SiteSlug(path)
      case Some(slug) => SitePages(v, slug)
      case None => OtherPage(v)
  }

  /** Layouts and page run side by side: whichever redirects may answer first. */
  function Responses(v: Visit, path: string): set<Response> {
    if NeedsSessionCookie(v, path) then {Redirect(LOGIN)}
    else if Layout(v, path) == Render then Pages(v, path)
    else {Layout(v, path)} + (Pages(v, path) - {Render})
  }

  // ---- Following redirects ----

  /** Every chain from path renders after at most n redirects. */
  ghost predicate Settles(v: Visit, path: string, n: nat)
    decreases n
  {
    forall r :: r in Responses(v, path) ==> r == Render || (n > 0 && Settles(v, r.path, n - 1))
  }

  lemma HubsAreDistinct()
    ensures HOME != LOGIN && HOME != SETUP && HOME != NO_ACCESS && LOGIN != SETUP && LOGIN != NO_ACCESS && SETUP != NO_ACCESS
    ensures !IsPublicPage(HOME) && !IsPublicPage(NO_ACCESS) && HOME != DEMO && NO_ACCESS != DEMO
  {
    assert |HOME| == 1 && |LOGIN| == 6 && |SETUP| == 6 && |NO_ACCESS| == 10;
    assert LOGIN[1] == 'l' && SETUP[1] == 's' && NO_ACCESS[1] == 'n' && DEMO[1] == 'h';
    assert |FORGOT| == 16 && |RESET| == 15;
  }

  // ---- Where a site's path leads ----

  /** A path below a site that is enabled and open to the session. */
  predicate IsOpenSite(v: Visit, path: string) {
    SiteSlug(path).Some? && OpensSlug(v, SiteSlug(path).value)
  }

  lemma SitePathShape(path: string)
    requires StartsWith(path, SITES)
    ensures path != HOME && path != NO_ACCESS && !IsPublicPage(path) && !IsShortcut(path)
  {
    assert path[1] == SITES[1] && path[2] == SITES[2];
    assert path[1] == 's' && path[2] == 'i' && SETUP[2] == 'e' && NO_ACCESS[1] == 'n';
    assert FORGOT[1] == 'f' && DEMO[1] == 'h' && LOGIN[1] == 'l' && RESET[1] == 'r';
    assert "/settings"[2] == 'e';
  }

  lemma SlugOfPath(slug: string, rest: string)
    requires slug != "" && Lacks(slug, '/') && (rest == "" || rest[0] == '/')
    ensures SiteSlug(SITES + slug + rest) == Some(slug) && StartsWith(SITES + slug + rest, SITES)
  {
    var path := SITES + slug + rest;
    assert path[..|SITES|] == SITES && path[|SITES|..] == slug + rest;
    if rest == "" {
      assert slug + rest == slug;
    } else {
      assert slug + rest == slug + ['/'] + rest[1..];
      IndexOfUnique(slug, '/', rest[1..]);
    }
  }

  lemma FoundAt(v: Visit, i: nat)
    requires v.Consistent() && i < |v.sites|
    ensures FindSite(v.sites, v.sites[i].slug) == i
  {
  }

  /** The paths below an enabled site open to the session are open. */
  lemma OpensAt(v: Visit, i: nat, rest: string)
    requires v.Consistent() && i < |v.sites| && v.sites[i].enabled && (rest == "" || rest[0] == '/')
    ensures MayOpen(v, i) ==> IsOpenSite(v, SITES + v.sites[i].slug + rest)
    ensures SiteSlug(SITES + v.sites[i].slug + rest) == Some(v.sites[i].slug)
    ensures StartsWith(SITES + v.sites[i].slug + rest, SITES)
  {
    SlugOfPath(v.sites[i].slug, rest);
    FoundAt(v, i);
  }

  /** The page of the first site a session may open renders in that site's layout. */
  lemma LandingRenders(v: Visit)
    requires v.Consistent() && v.session.Some? && Landing(v.sites) >= 0
    ensures var slug := v.sites[Landing(v.sites)].slug;
            SiteSlug(SITES + slug) == Some(slug) && SiteLayout(v, slug) == Render && HasAccess(v.session.value)
  {
    var i := Landing(v.sites);
    OpensAt(v, i, "");
    assert SITES + v.sites[i].slug + "" == SITES + v.sites[i].slug;
    FoundAt(v, i);
  }

  /** The site that a page without one leads to: an enabled one, and one the session may open. */
  lemma ResolvedSite(v: Visit) returns (i: int)
    requires v.Consistent()
    ensures i < |v.sites|
    ensures i >= 0 ==> v.sites[i].enabled && (v.session.Some? ==> MayOpen(v, i)) && ResolveSlug(v) == Some(v.sites[i].slug)
    ensures i < 0 ==> ResolveSlug(v).None? && forall k :: 0 <= k < |v.sites| ==> !(v.sites[k].enabled && (v.session.Some? ==> MayOpen(v, k)))
  {
    var last := if v.lastSite.Some? && v.lastSite.value != "" then FindSite(v.sites, v.lastSite.value) else -1;
    if last >= 0 && v.sites[last].enabled && (v.session.None? || MayOpen(v, last)) {
      i := last;
    } else {
      i := if v.session.Some? && !v.session.value.isAdmin then Landing(v.sites) else DefaultSite(v.sites);
    }
  }

  /**
   A page without a site leads on to the same page of a site exactly when some enabled site is open
   to the visitor; that page's layout then renders for a session. Otherwise it leads to the setup page.
   */
  lemma ShortcutLeadsToOpenSite(v: Visit, path: string)
    requires v.Consistent() && path != "" && path[0] == '/'
    ensures ShortcutPage(v, path) != Redirect(SETUP) <==>
            exists k :: 0 <= k < |v.sites| && v.sites[k].enabled && (v.session.Some? ==> MayOpen(v, k))
    ensures var r := ShortcutPage(v, path);
            r == Redirect(SETUP) || (r.Redirect? && StartsWith(r.path, SITES) && (v.session.Some? ==> IsOpenSite(v, r.path)))
  {
    var i := ResolvedSite(v);
    if i >= 0 {
      OpensAt(v, i, path);
      SitePathShape(SITES + v.sites[i].slug + path);
    }
  }

  // ---- Who sees a page ----

  /** The path is the site's own or lies below it. */
  predicate Below(path: string, slug: string) {
    path == "/sites/" + slug || StartsWith(path, "/sites/" + slug + "/")
  }

  lemma BelowIsSlug(path: string, slug: string)
    requires slug != "" && Lacks(slug, '/')
    ensures Below(path, slug) <==> SiteSlug(path) == Some(slug)
  {
    if path == SITES + slug {
      SlugOfPath(slug, "");
      assert SITES + slug + "" == path;
    } else if Below(path, slug) {
      var rest := path[|SITES + slug|..];
      assert path == SITES + slug + rest && rest[0] == '/';
      SlugOfPath(slug, rest);
    }
    if SiteSlug(path) == Some(slug) { SlugIsBelow(path, slug); }
  }

  lemma SlugIsBelow(path: string, slug: string)
    requires SiteSlug(path) == Some(slug)
    ensures Below(path, slug)
  {
    var rest := path[|SITES|..];
    assert path == SITES + rest;
    if IndexOf(rest, '/') >= 0 {
      var k := IndexOf(rest, '/');
      assert rest == rest[..k] + ['/'] + rest[k + 1..];
      SlashFollows(slug, rest[k + 1..]);
    }
  }

  lemma SlashFollows(slug: string, tail: string)
    ensures Below(SITES + (slug + ['/'] + tail), slug)
  {
    var prefix := "/sites/" + slug + "/";
    assert SITES + (slug + ['/'] + tail) == prefix + tail;
  }

  /** Before the first user exists only the setup page is shown. */
  lemma BeforeSetupOnlySetup(v: Visit, path: string)
    requires v.Consistent() && v.userCount == 0
    ensures Render in Responses(v, path) <==> path == "/setup"
  {
    HubsAreDistinct();
  }

  /** Without a session only the public pages are shown. */
  lemma AnonymousSeesPublicPages(v: Visit, path: string)
    requires v.userCount > 0 && v.session.None?
    ensures Render in Responses(v, path) <==>
            path == "/hero-demo" || path == "/forgot-password" || path == "/login" || path == "/reset-password"
  {
    HubsAreDistinct();
    assert |DEMO| == 10 && DEMO[1] == 'h';
  }

  /**
   With a session the public forms are not shown, home only with an enabled site and access, the
   no-access page only without access, a page below an enabled site only if the session may open that
   site, and a page that leads on never; everything else is.
   */
  lemma SessionSees(v: Visit, path: string, s: Session)
    requires v.Consistent() && v.session == Some(s)
    ensures Render in Responses(v, path) <==>
            || path == "/hero-demo"
            || (&& path != "/forgot-password" && path != "/login" && path != "/reset-password" && path != "/setup"
                && (path == "/" ==> (exists i :: 0 <= i < |v.sites| && v.sites[i].enabled) && (s.isAdmin || s.accessibleSites > 0))
                && (path == "/no-access" ==> !s.isAdmin && s.accessibleSites == 0)
                && !IsShortcut(path)
                && forall i :: 0 <= i < |v.sites| && v.sites[i].enabled && Below(path, v.sites[i].slug) ==>
                     s.isAdmin || v.sites[i].accessible)
  {
    SessionGetsPages(v, path);
    if path != "/" && path != "/no-access" && !IsPublicPage(path) && !IsShortcut(path) { SitesShow(v, path, s); }
  }

  /** With a session the root layout only keeps the public forms back. */
  lemma SessionGetsPages(v: Visit, path: string)
    requires v.Consistent() && v.session.Some?
    ensures Render in Responses(v, path) <==>
            && path != "/forgot-password" && path != "/login" && path != "/reset-password" && path != "/setup"
            && Render in Pages(v, path)
    ensures path == "/" || path == "/no-access" || IsShortcut(path) ==> !StartsWith(path, SITES) && path != "/hero-demo"
  {
    HubsAreDistinct();
    assert |DEMO| == 10 && DEMO[1] == 'h';
    PublicPathsAreNoSites(path);
    DemoLeadsNowhere();
  }

  lemma DemoLeadsNowhere()
    ensures !IsShortcut(DEMO) && DEMO != HOME && DEMO != NO_ACCESS
  {
    assert |DEMO| == 10 && DEMO[1] == 'h';
  }

  /** A page below a site is shown, unless that site is enabled and not open to the session. */
  lemma SitesShow(v: Visit, path: string, s: Session)
    requires v.Consistent() && v.session == Some(s)
    requires path != "/" && path != "/no-access" && !IsPublicPage(path) && !IsShortcut(path)
    ensures Render in Pages(v, path) <==>
            forall i :: 0 <= i < |v.sites| && v.sites[i].enabled && Below(path, v.sites[i].slug) ==> s.isAdmin || v.sites[i].accessible
  {
    forall i | 0 <= i < |v.sites| ensures Below(path, v.sites[i].slug) <==> SiteSlug(path) == Some(v.sites[i].slug) {
      BelowIsSlug(path, v.sites[i].slug);
    }
    if SiteSlug(path).Some? {
      var k := FindSite(v.sites, SiteSlug(path).value);
      assert k >= 0 ==> Below(path, v.sites[k].slug);
    }
  }

  /** A path the proxy lets through without a cookie: the public pages, the interfaces, and names with an extension. */
  ghost predicate LetThrough(path: string) {
    || path == "/forgot-password" || path == "/hero-demo" || path == "/login" || path == "/reset-password" || path == "/setup"
    || path == "/api" || StartsWith(path, "/api/") || StartsWith(path, "/auth/sso/") || StartsWith(path, "/_next/")
    || exists a, b :: b != "" && Lacks(b, '/') && path == a + "." + b
  }

  lemma ExtensionExactly(path: string)
    ensures HasExtension(path) <==> exists a, b :: b != "" && Lacks(b, '/') && path == a + "." + b
  {
    if HasExtension(path) {
      var i :| 0 <= i < |path| - 1 && path[i] == '.' && forall j :: i < j < |path| ==> path[j] != '/';
      var a, b := path[..i], path[i + 1..];
      assert forall j :: 0 <= j < |b| ==> b[j] == path[i + 1 + j];
      assert Lacks(b, '/') && path == a + "." + b;
    }
    if a, b :| b != "" && Lacks(b, '/') && path == a + "." + b { DotBefore(a, b); }
  }

  lemma DotBefore(a: string, b: string)
    requires b != "" && Lacks(b, '/')
    ensures HasExtension(a + "." + b)
  {
    var path, i := a + "." + b, |a|;
    forall j | i < j < |path| ensures path[j] != '/' {
      assert path[j] == b[j - i - 1];
    }
    assert 0 <= i < |path| - 1 && path[i] == '.';
  }

  /**
   A request without cookie and token goes to the login page before any page is asked, unless the
   proxy lets its path through; before the first user exists every other request may go to setup.
   */
  lemma ProxyStopsExactly(v: Visit, path: string)
    ensures !v.hasCookie && !v.hasBearer && !LetThrough(path) ==> Responses(v, path) == {Redirect("/login")}
    ensures v.userCount == 0 && path != "/setup" ==>
              (Redirect("/setup") in Responses(v, path) <==> v.hasCookie || v.hasBearer || LetThrough(path))
  {
    HubsAreDistinct();
    ExtensionExactly(path);
  }

  /** Site i is the first that is enabled and open to the session. */
  predicate IsFirstOpen(v: Visit, i: nat) {
    && i < |v.sites| && v.sites[i].enabled && v.sites[i].accessible
    && forall j :: 0 <= j < i ==> !(v.sites[j].enabled && v.sites[j].accessible)
  }

  predicate NoneOpen(v: Visit) {
    forall j :: 0 <= j < |v.sites| ==> !(v.sites[j].enabled && v.sites[j].accessible)
  }

  /** What a page of no site answers to a session: it may be for admins only. */
  lemma OtherPageAnswers(v: Visit, path: string, s: Session)
    requires v.Consistent() && v.session == Some(s)
    requires path != "/" && path != "/no-access" && !IsPublicPage(path) && !IsShortcut(path) && !StartsWith(path, "/sites/")
    ensures Responses(v, path) == if s.isAdmin then {Render} else {Render, Redirect("/")}
  {
    HubsAreDistinct();
  }

  /** What a page below a site answers to a session: not found when the site is disabled, else it may be for admins only. */
  lemma SitePageAnswers(v: Visit, path: string, s: Session, i: nat)
    requires v.Consistent() && v.session == Some(s) && i < |v.sites| && Below(path, v.sites[i].slug)
    requires v.sites[i].enabled ==> s.isAdmin || v.sites[i].accessible
    ensures Responses(v, path) == if !v.sites[i].enabled || s.isAdmin then {Render} else {Render, Redirect("/")}
  {
    BelowIsSlug(path, v.sites[i].slug);
    FoundAt(v, i);
    SitePathShape(path);
  }

  /** A session is sent from a site it may not open to the first one it may, or home. */
  lemma ClosedSiteLeadsOn(v: Visit, path: string, s: Session, i: nat)
    requires v.Consistent() && v.session == Some(s) && !s.isAdmin
    requires i < |v.sites| && Below(path, v.sites[i].slug) && v.sites[i].enabled && !v.sites[i].accessible
    ensures NoneOpen(v) ==> Responses(v, path) == {Redirect("/")}
    ensures forall k: nat :: IsFirstOpen(v, k) ==> Responses(v, path) == {Redirect("/sites/" + v.sites[k].slug)}
  {
    BelowIsSlug(path, v.sites[i].slug);
    FoundAt(v, i);
    PublicPathsAreNoSites(path);
    HubsAreDistinct();
    forall k: nat | IsFirstOpen(v, k) ensures Landing(v.sites) == k { }
  }

  /** A path below no site name has no site. */
  lemma SlugIsSegment(path: string)
    ensures SiteSlug(path).Some? ==> SiteSlug(path).value != "" && Lacks(SiteSlug(path).value, '/')
  {
  }

  /** The site used last, when it is enabled and open to the visitor. */
  predicate LastServes(v: Visit, i: nat) {
    && i < |v.sites| && v.lastSite == Some(v.sites[i].slug) && v.sites[i].enabled
    && (v.session.Some? ==> v.session.value.isAdmin || v.sites[i].accessible)
  }

  /**
   Where a page that leads on leads: to the site used last if it serves; else a non-admin session to
   the first site open to it; else to the enabled default site, and without one to the first enabled site.
   */
  lemma ResolvesExactly(v: Visit, i: nat)
    requires v.Consistent() && i < |v.sites|
    ensures LastServes(v, i) ==> ResolveSlug(v) == Some(v.sites[i].slug)
    ensures (forall k: nat :: !LastServes(v, k)) && v.session.Some? && !v.session.value.isAdmin && IsFirstOpen(v, i) ==>
              ResolveSlug(v) == Some(v.sites[i].slug)
    ensures (forall k: nat :: !LastServes(v, k)) && (v.session.Some? ==> v.session.value.isAdmin) && v.sites[i].enabled
              && (if v.sites[i].isDefault then forall j :: 0 <= j < i ==> !(v.sites[j].isDefault && v.sites[j].enabled)
                  else (forall j :: 0 <= j < i ==> !v.sites[j].enabled)
                       && forall j :: 0 <= j < |v.sites| ==> !(v.sites[j].isDefault && v.sites[j].enabled)) ==>
              ResolveSlug(v) == Some(v.sites[i].slug)
  {
    FoundAt(v, i);
    var last := if v.lastSite.Some? then FindSite(v.sites, v.lastSite.value) else -1;
    assert last >= 0 && v.sites[last].enabled && (v.session.Some? ==> MayOpen(v, last)) ==> LastServes(v, last);
    if IsFirstOpen(v, i) { assert Landing(v.sites) == i; }
  }

  /** Which pages lead on: nine by name, and those of one or two further segments. */
  lemma ShortcutsExactly(path: string)
    ensures IsShortcut(path) <==>
            || path in ["/alerts", "/backups", "/cve-scanner", "/deployments", "/images", "/iso-images", "/settings", "/tags", "/templates"]
            || exists a, b :: a != "" && b != "" && Lacks(a, '/') && Lacks(b, '/')
                 && path in ["/deployments/" + a, "/tags/" + a, "/templates/" + a, "/templates/vm/" + a, "/images/" + a + "/" + b]
  {
    Segments(path, "/deployments/");
    Segments(path, "/tags/");
    Segments(path, "/templates/");
    Segments(path, "/templates/vm/");
    Segments(path, "/images/");
    if IsShortcut(path) && |path| > 0 {
      if OneSegment(path, "/deployments/") { Witness(path, path[|"/deployments/"|..], "b"); }
      if OneSegment(path, "/tags/") { Witness(path, path[|"/tags/"|..], "b"); }
      if OneSegment(path, "/templates/") { Witness(path, path[|"/templates/"|..], "b"); }
      if OneSegment(path, "/templates/vm/") { Witness(path, path[|"/templates/vm/"|..], "b"); }
    }
  }

  lemma Witness(path: string, a: string, b: string)
    requires a != "" && b != "" && Lacks(a, '/') && Lacks(b, '/')
    requires path in ["/deployments/" + a, "/tags/" + a, "/templates/" + a, "/templates/vm/" + a, "/images/" + a + "/" + b]
    ensures exists a, b :: a != "" && b != "" && Lacks(a, '/') && Lacks(b, '/')
              && path in ["/deployments/" + a, "/tags/" + a, "/templates/" + a, "/templates/vm/" + a, "/images/" + a + "/" + b]
  {
  }

  lemma Segments(path: string, prefix: string)
    ensures OneSegment(path, prefix) <==> exists a :: a != "" && Lacks(a, '/') && path == prefix + a
    ensures TwoSegments(path, prefix) <==> exists a, b :: a != "" && b != "" && Lacks(a, '/') && Lacks(b, '/') && path == prefix + a + "/" + b
  {
    if OneSegment(path, prefix) { assert path == prefix + path[|prefix|..]; }
    if TwoSegments(path, prefix) { SplitTwo(path, prefix); }
    if a, b :| a != "" && b != "" && Lacks(a, '/') && Lacks(b, '/') && path == prefix + a + "/" + b { JoinTwo(prefix, a, b); }
  }

  lemma SplitTwo(path: string, prefix: string)
    requires TwoSegments(path, prefix)
    ensures exists a, b :: a != "" && b != "" && Lacks(a, '/') && Lacks(b, '/') && path == prefix + a + "/" + b
  {
    var k :| |prefix| < k < |path| - 1 && path[k] == '/' && Lacks(path[|prefix|..k], '/') && Lacks(path[k + 1..], '/');
    Cut(path, |prefix|, k);
  }

  lemma Cut(path: string, i: nat, k: nat)
    requires i <= k < |path| && path[k] == '/'
    ensures path == path[..i] + path[i..k] + "/" + path[k + 1..]
  {
  }

  lemma JoinTwo(prefix: string, a: string, b: string)
    requires a != "" && b != "" && Lacks(a, '/') && Lacks(b, '/')
    ensures TwoSegments(prefix + a + "/" + b, prefix)
  {
    var path, k := prefix + a + "/" + b, |prefix| + |a|;
    assert path[k] == '/' && path[|prefix|..k] == a && path[k + 1..] == b && path[..|prefix|] == prefix;
  }

  // ---- Termination, with its exact condition ----

  /** No visit loops: a redirect brings the visit nearer to a page that renders. */
  predicate Terminating(v: Visit) {
    v.session.None? || v.AnyEnabled()
  }

  /** How many redirects are still possible from a path. */
  function Distance(v: Visit, path: string): nat {
    match v.session
    case None =>
      if v.userCount == 0 then
        if path == SETUP then 0 else if path == LOGIN then 1 else if IsShortcut(path) && v.AnyEnabled() then 3 else 2
      else
        if path == LOGIN then 0 else if path == SETUP then 1 else if IsShortcut(path) then 2 else 1
    case Some(s) =>
      if path == HOME then (if HasAccess(s) then 0 else 1)
      else if path == NO_ACCESS then (if HasAccess(s) then 1 else 0)
      else if HasAccess(s) then (if IsOpenSite(v, path) || IsPublicPage(path) then 1 else 2)
      else if IsShortcut(path) then 3 else 2
  }

  /** Every path of the application begins with a slash. */
  predicate IsPath(path: string) {
    path != "" && path[0] == '/'
  }

  lemma PublicPathsAreNoSites(path: string)
    ensures StartsWith(path, SITES) ==> !IsPublicPage(path) && path != HOME && path != NO_ACCESS && !IsShortcut(path)
  {
    if StartsWith(path, SITES) { SitePathShape(path); }
  }

  lemma ShortcutComesNearer(v: Visit, path: string)
    requires v.Consistent() && Terminating(v) && IsShortcut(path) && IsPath(path)
    requires path != HOME && path != NO_ACCESS && !IsPublicPage(path)
    ensures Distance(v, ShortcutPage(v, path).path) < Distance(v, path)
  {
    HubsAreDistinct();
    ShortcutLeadsToOpenSite(v, path);
    PublicPathsAreNoSites(ShortcutPage(v, path).path);
    PublicPathsAreNoSites(path);
  }

  lemma SitePageComesNearer(v: Visit, path: string, slug: string)
    requires v.Consistent() && Terminating(v) && SiteSlug(path) == Some(slug)
    ensures var r := SiteLayout(v, slug); r.Redirect? ==> Distance(v, r.path) < Distance(v, path)
    ensures var r := SiteGuard(v, slug); r.Redirect? ==> Distance(v, r.path) < Distance(v, path)
  {
    HubsAreDistinct();
    PublicPathsAreNoSites(path);
    var landing := Landing(v.sites);
    if landing >= 0 && v.session.Some? {
      OpensAt(v, landing, "");
      assert SITES + v.sites[landing].slug + "" == SITES + v.sites[landing].slug;
      PublicPathsAreNoSites(SITES + v.sites[landing].slug);
    }
  }

  /** Redirects of the proxy and of the root layout. */
  lemma LayoutComesNearer(v: Visit, path: string, r: Response)
    requires v.Consistent() && Terminating(v) && r.Redirect?
    requires r == Layout(v, path) || (NeedsSessionCookie(v, path) && r.path == LOGIN)
    ensures Distance(v, r.path) < Distance(v, path) && IsPath(r.path)
  {
    HubsAreDistinct();
    PublicPathsAreNoSites(path);
  }

  lemma PageComesNearer(v: Visit, path: string, r: Response)
    requires v.Consistent() && Terminating(v) && IsPath(path) && r in Pages(v, path) && r.Redirect?
    ensures Distance(v, r.path) < Distance(v, path) && IsPath(r.path)
  {
    HubsAreDistinct();
    assert SITES[0] == '/';
    if path != HOME && path != NO_ACCESS && !IsPublicPage(path) {
      if IsShortcut(path) {
        ShortcutComesNearer(v, path);
      } else if SiteSlug(path).Some? {
        SitePageComesNearer(v, path, SiteSlug(path).value);
      }
    }
  }

  lemma RedirectComesNearer(v: Visit, path: string, r: Response)
    requires v.Consistent() && Terminating(v) && IsPath(path)
    requires r in Responses(v, path) && r.Redirect?
    ensures Distance(v, r.path) < Distance(v, path) && IsPath(r.path)
  {
    if r == Layout(v, path) || NeedsSessionCookie(v, path) { LayoutComesNearer(v, path, r); } else { PageComesNearer(v, path, r); }
  }

  lemma {:induction false} SettlesWithin(v: Visit, path: string, n: nat)
    requires v.Consistent() && Terminating(v) && IsPath(path) && Distance(v, path) <= n
    ensures Settles(v, path, n)
    decreases n
  {
    forall r | r in Responses(v, path) && r.Redirect? ensures n > 0 && Settles(v, r.path, n - 1) {
      RedirectComesNearer(v, path, r);
      SettlesWithin(v, r.path, n - 1);
    }
  }

  lemma LoopStep(v: Visit)
    requires v.Consistent() && !Terminating(v)
    ensures Redirect(SETUP) in Responses(v, HOME) && Redirect(HOME) in Responses(v, SETUP)
  {
    HubsAreDistinct();
    assert Layout(v, SETUP) == Redirect(HOME);
    assert Layout(v, HOME) == Render;
  }

  /** With a session and no enabled site, home and setup send the browser back and forth for ever. */
  lemma {:induction false} LoopsForever(v: Visit, n: nat)
    requires v.Consistent() && !Terminating(v)
    ensures !Settles(v, HOME, n) && !Settles(v, SETUP, n)
    decreases n
  {
    LoopStep(v);
    if n > 0 { LoopsForever(v, n - 1); }
  }

  /**
   From every path, every chain renders after at most three redirects exactly when there is no
   session or some site is enabled.
   */
  lemma {:induction false} ThreeRedirectsSuffice(v: Visit)
    requires v.Consistent()
    ensures (forall path :: IsPath(path) ==> Settles(v, path, 3)) <==> Terminating(v)
  {
    if Terminating(v) {
      forall path | IsPath(path) ensures Settles(v, path, 3) { SettlesWithin(v, path, 3); }
    } else {
      LoopsForever(v, 3);
    }
  }

  // ---- When two are enough ----

  /** A session reaches an enabled site's home; without any user no site is enabled. */
  predicate Quick(v: Visit) {
    match v.session
    case Some(s) => v.AnyEnabled() && HasAccess(s)
    case None => v.userCount == 0 ==> !v.AnyEnabled()
  }

  const ALERTS := "/alerts"

  /** A session without access opens a page without a site: by setup and home to the no-access page. */
  lemma {:induction false} NoAccessTakesThree(v: Visit)
    requires v.Consistent() && v.session.Some? && !HasAccess(v.session.value) && v.AnyEnabled()
    ensures !Settles(v, ALERTS, 2)
  {
    HubsAreDistinct();
    assert !IsPublicPage(ALERTS) && ALERTS != DEMO && ALERTS != HOME && ALERTS != NO_ACCESS by {
      assert ALERTS[1] == 'a' && LOGIN[1] == 'l' && SETUP[1] == 's' && NO_ACCESS[1] == 'n' && DEMO[1] == 'h' && FORGOT[1] == 'f' && RESET[1] == 'r';
    }
    ShortcutLeadsToOpenSite(v, ALERTS);
    assert Redirect(SETUP) in Responses(v, ALERTS);
    assert Redirect(HOME) in Responses(v, SETUP);
    assert Redirect(NO_ACCESS) in Responses(v, HOME);
    assert !Settles(v, HOME, 0);
    assert !Settles(v, SETUP, 1);
  }

  const DOTTED := "/tags/a.b"

  /** Without a user, a page with a dot in its name leads to a site's page, on to the login page and on to setup. */
  lemma {:induction false} NoUserTakesThree(v: Visit)
    requires v.Consistent() && v.session.None? && v.userCount == 0 && v.AnyEnabled()
    ensures !Settles(v, DOTTED, 2)
  {
    HubsAreDistinct();
    DottedPath();
    ShortcutLeadsToOpenSite(v, DOTTED);
    var i := ResolvedSite(v);
    var path := SITES + v.sites[i].slug + DOTTED;
    OpensAt(v, i, DOTTED);
    SitePathShape(path);
    DottedExtension(SITES + v.sites[i].slug);
    assert Redirect(path) in Responses(v, DOTTED);
    assert Redirect(LOGIN) in Responses(v, path);
    assert Redirect(SETUP) in Responses(v, LOGIN);
    assert !Settles(v, LOGIN, 0);
    assert !Settles(v, path, 1);
  }

  lemma DottedPath()
    ensures IsShortcut(DOTTED) && HasExtension(DOTTED) && IsPath(DOTTED)
    ensures DOTTED != HOME && DOTTED != NO_ACCESS && !IsPublicPage(DOTTED)
  {
    var prefix := "/tags/";
    assert |prefix| == 6 && DOTTED[..6] == prefix && DOTTED[6..] == "a.b";
    assert DOTTED[7] == '.';
    assert DOTTED[1] == 't' && LOGIN[1] == 'l' && SETUP[1] == 's' && NO_ACCESS[1] == 'n' && DEMO[1] == 'h' && FORGOT[1] == 'f' && RESET[1] == 'r';
  }

  lemma DottedExtension(prefix: string)
    ensures HasExtension(prefix + DOTTED)
  {
    var path := prefix + DOTTED;
    var i := |prefix| + 7;
    assert path[i] == '.' && path[i + 1] == 'b' && |path| == i + 2;
  }

  /**
   Two redirects are enough from every path exactly when a session has an enabled site and access,
   and, before the first user exists, no site is enabled.
   */
  lemma {:induction false} TwoRedirectsSuffice(v: Visit)
    requires v.Consistent()
    ensures (forall path :: IsPath(path) ==> Settles(v, path, 2)) <==> Quick(v)
  {
    if Quick(v) {
      forall path | IsPath(path) ensures Settles(v, path, 2) { SettlesWithin(v, path, 2); }
    } else if !Terminating(v) {
      LoopsForever(v, 2);
    } else if v.session.Some? {
      NoAccessTakesThree(v);
    } else {
      DottedPath();
      NoUserTakesThree(v);
    }
  }
}
