/** The sitemap: every locale crossed with the static pages, the project
    pages and the blog articles, appended locale by locale to one list. */
module Sitemap {

  datatype ChangeFrequency = Weekly | Monthly

  /** One sitemap entry. Priorities are in tenths (1 is 10, 0.8 is 8, 0.7
      is 7); `lastModified` is the single timestamp taken at generation. */
  datatype Route = Route(url: string, lastModified: int, changeFrequency: ChangeFrequency, priority: nat)

  const BaseUrl := "https://elysene.engineering"
  const Locales: seq<string> := ["fr", "en"]
  const StaticPages: seq<string> := ["", "/blog", "/legal", "/privacy"]
  const ProjectSlugs: seq<string> :=
    ["monitoring-big-data", "cloud-data-migration", "saas-esg-genai", "bi-governance-security"]
  const ArticleSlugs: seq<string> := ["big-data-rgpd"]

  /** The site's inputs to `sitemap()`. */
  datatype Site = Site(
    baseUrl: string,
    locales: seq<string>,
    staticPages: seq<string>,
    projectSlugs: seq<string>,
    articleSlugs: seq<string>,
    lastModified: int)

  // ---------------------------------------------------------------------
  // The entries, one kind at a time
  // ---------------------------------------------------------------------

  /** `${baseUrl}/${locale}` */
  function LocaleRoot(site: Site, locale: string): string {
    site.baseUrl + "/" + locale
  }

  function StaticRoute(site: Site, locale: string, page: string): (r: Route)
    ensures r.url == LocaleRoot(site, locale) + page
    ensures r.lastModified == site.lastModified
    ensures page == "" ==> r.priority == 10 && r.changeFrequency == Weekly
    ensures page != "" ==> r.priority == 8 && r.changeFrequency == Monthly
  {
    Route(LocaleRoot(site, locale) + page, site.lastModified,
      if page == "" then Weekly else Monthly,
      if page == "" then 10 else 8)
  }

  function ProjectRoute(site: Site, locale: string, slug: string): (r: Route)
    ensures r.url == LocaleRoot(site, locale) + "/projects/" + slug
    ensures r.lastModified == site.lastModified && r.priority == 7 && r.changeFrequency == Monthly
  {
    Route(LocaleRoot(site, locale) + "/projects/" + slug, site.lastModified, Monthly, 7)
  }

  function ArticleRoute(site: Site, locale: string, slug: string): (r: Route)
    ensures r.url == LocaleRoot(site, locale) + "/blog/" + slug
    ensures r.lastModified == site.lastModified && r.priority == 7 && r.changeFrequency == Monthly
  {
    Route(LocaleRoot(site, locale) + "/blog/" + slug, site.lastModified, Monthly, 7)
  }

  // ---------------------------------------------------------------------
  // The specification of the list, built from the last element backwards
  // so that it matches a loop that appends
  // ---------------------------------------------------------------------

  function StaticRoutes(site: Site, locale: string, pages: seq<string>): (r: seq<Route>)
    ensures |r| == |pages|
  {
    if pages == [] then []
    else StaticRoutes(site, locale, pages[..|pages| - 1]) + [StaticRoute(site, locale, pages[|pages| - 1])]
  }

  function ProjectRoutes(site: Site, locale: string, slugs: seq<string>): (r: seq<Route>)
    ensures |r| == |slugs|
  {
    if slugs == [] then []
    else ProjectRoutes(site, locale, slugs[..|slugs| - 1]) + [ProjectRoute(site, locale, slugs[|slugs| - 1])]
  }

  function ArticleRoutes(site: Site, locale: string, slugs: seq<string>): (r: seq<Route>)
    ensures |r| == |slugs|
  {
    if slugs == [] then []
    else ArticleRoutes(site, locale, slugs[..|slugs| - 1]) + [ArticleRoute(site, locale, slugs[|slugs| - 1])]
  }

  /** Static pages, then projects, then articles, for one locale. */
  function LocaleRoutes(site: Site, locale: string): (r: seq<Route>)
    ensures |r| == PerLocale(site)
  {
    StaticRoutes(site, locale, site.staticPages)
      + ProjectRoutes(site, locale, site.projectSlugs)
      + ArticleRoutes(site, locale, site.articleSlugs)
  }

  function RoutesFor(site: Site, locales: seq<string>): seq<Route> {
    if locales == [] then []
    else RoutesFor(site, locales[..|locales| - 1]) + LocaleRoutes(site, locales[|locales| - 1])
  }

  /** Entries per locale. */
  function PerLocale(site: Site): nat {
    |site.staticPages| + |site.projectSlugs| + |site.articleSlugs|
  }

  // ---------------------------------------------------------------------
  // The generator, as the nested loops that push onto `routes`
  // ---------------------------------------------------------------------

  method BuildRoutes(site: Site) returns (routes: seq<Route>)
    ensures routes == RoutesFor(site, site.locales)
  {
    routes := [];
    for i := 0 to |site.locales|
      invariant routes == RoutesFor(site, site.locales[..i])
    {
      routes := PushLocale(site, site.locales[i], routes);
      NextLocale(site, site.locales, i);
    }
    assert site.locales[..|site.locales|] == site.locales;
  }

  /** One more locale appends its block. */
  lemma NextLocale(site: Site, locales: seq<string>, i: nat)
    requires i < |locales|
    ensures RoutesFor(site, locales[..i + 1]) == RoutesFor(site, locales[..i]) + LocaleRoutes(site, locales[i])
  {
    assert locales[..i + 1][..i] == locales[..i];
  }

  /** The body of the outer `forEach`: one locale's three inner loops. */
  method PushLocale(site: Site, locale: string, before: seq<Route>) returns (routes: seq<Route>)
    ensures routes == before + LocaleRoutes(site, locale)
  {
    routes := PushStatic(site, locale, before);
    routes := PushProjects(site, locale, routes);
    routes := PushArticles(site, locale, routes);
  }

  /** The `staticPages.forEach` loop. */
  method PushStatic(site: Site, locale: string, before: seq<Route>) returns (routes: seq<Route>)
    ensures routes == before + StaticRoutes(site, locale, site.staticPages)
  {
    var pages := site.staticPages;
    routes := before;
    for j := 0 to |pages|
      invariant routes == before + StaticRoutes(site, locale, pages[..j])
    {
      assert pages[..j + 1][..j] == pages[..j];
      routes := routes + [StaticRoute(site, locale, pages[j])];
    }
    assert pages[..|pages|] == pages;
  }

  /** The `projectSlugs.forEach` loop. */
  method PushProjects(site: Site, locale: string, before: seq<Route>) returns (routes: seq<Route>)
    ensures routes == before + ProjectRoutes(site, locale, site.projectSlugs)
  {
    var slugs := site.projectSlugs;
    routes := before;
    for j := 0 to |slugs|
      invariant routes == before + ProjectRoutes(site, locale, slugs[..j])
    {
      assert slugs[..j + 1][..j] == slugs[..j];
      routes := routes + [ProjectRoute(site, locale, slugs[j])];
    }
    assert slugs[..|slugs|] == slugs;
  }

  /** The `articleSlugs.forEach` loop. */
  method PushArticles(site: Site, locale: string, before: seq<Route>) returns (routes: seq<Route>)
    ensures routes == before + ArticleRoutes(site, locale, site.articleSlugs)
  {
    var slugs := site.articleSlugs;
    routes := before;
    for j := 0 to |slugs|
      invariant routes == before + ArticleRoutes(site, locale, slugs[..j])
    {
      assert slugs[..j + 1][..j] == slugs[..j];
      routes := routes + [ArticleRoute(site, locale, slugs[j])];
    }
    assert slugs[..|slugs|] == slugs;
  }

  /** `sitemap()` on the site's own constants, with the timestamp as input. */
  method Generate(lastModified: int) returns (routes: seq<Route>)
    ensures routes == RoutesFor(TheSite(lastModified), Locales)
    ensures |routes| == 18
  {
    routes := BuildRoutes(TheSite(lastModified));
    RouteCount(TheSite(lastModified), Locales);
  }

  function TheSite(lastModified: int): (site: Site)
    ensures PerLocale(site) == 9
  {
    Site(BaseUrl, Locales, StaticPages, ProjectSlugs, ArticleSlugs, lastModified)
  }

  // ---------------------------------------------------------------------
  // Properties of the specification
  // ---------------------------------------------------------------------

  lemma {:induction false} StaticRoutesAt(site: Site, locale: string, pages: seq<string>, k: nat)
    requires k < |pages|
    ensures |StaticRoutes(site, locale, pages)| == |pages|
    ensures StaticRoutes(site, locale, pages)[k] == StaticRoute(site, locale, pages[k])
  {
    var n := |pages| - 1;
    if k < n {
      StaticRoutesAt(site, locale, pages[..n], k);
    }
  }

  lemma {:induction false} ProjectRoutesAt(site: Site, locale: string, slugs: seq<string>, k: nat)
    requires k < |slugs|
    ensures |ProjectRoutes(site, locale, slugs)| == |slugs|
    ensures ProjectRoutes(site, locale, slugs)[k] == ProjectRoute(site, locale, slugs[k])
  {
    var n := |slugs| - 1;
    if k < n {
      ProjectRoutesAt(site, locale, slugs[..n], k);
    }
  }

  lemma {:induction false} ArticleRoutesAt(site: Site, locale: string, slugs: seq<string>, k: nat)
    requires k < |slugs|
    ensures |ArticleRoutes(site, locale, slugs)| == |slugs|
    ensures ArticleRoutes(site, locale, slugs)[k] == ArticleRoute(site, locale, slugs[k])
  {
    var n := |slugs| - 1;
    if k < n {
      ArticleRoutesAt(site, locale, slugs[..n], k);
    }
  }

  /** Within one locale: the static pages in list order, then the projects,
      then the articles. */
  lemma LocaleRoutesAt(site: Site, locale: string, k: nat)
    requires k < PerLocale(site)
    ensures |LocaleRoutes(site, locale)| == PerLocale(site)
    ensures var s, p := |site.staticPages|, |site.projectSlugs|;
      LocaleRoutes(site, locale)[k] ==
        if k < s then StaticRoute(site, locale, site.staticPages[k])
        else if k < s + p then ProjectRoute(site, locale, site.projectSlugs[k - s])
        else ArticleRoute(site, locale, site.articleSlugs[k - s - p])
  {
    var s, p := |site.staticPages|, |site.projectSlugs|;
    if k < s {
      StaticRoutesAt(site, locale, site.staticPages, k);
    } else if k < s + p {
      ProjectRoutesAt(site, locale, site.projectSlugs, k - s);
    } else {
      ArticleRoutesAt(site, locale, site.articleSlugs, k - s - p);
    }
  }

  /** The count: |locales| × (|staticPages| + |projectSlugs| + |articleSlugs|). */
  lemma {:induction false} RouteCount(site: Site, locales: seq<string>)
    ensures |RoutesFor(site, locales)| == |locales| * PerLocale(site)
  {
    if locales != [] {
      var n := |locales| - 1;
      RouteCount(site, locales[..n]);
      assert |RoutesFor(site, locales)| == |RoutesFor(site, locales[..n])| + PerLocale(site);
      NextBlock(n, PerLocale(site));
    }
  }

  lemma NextBlock(n: nat, p: nat)
    ensures (n + 1) * p == n * p + p
  {
  }

  /** Locale-major order: entry `li * PerLocale + k` is entry `k` of locale `li`. */
  lemma {:induction false} RoutesAt(site: Site, locales: seq<string>, li: nat, k: nat)
    requires li < |locales| && k < PerLocale(site)
    ensures li * PerLocale(site) + k < |RoutesFor(site, locales)|
    ensures RoutesFor(site, locales)[li * PerLocale(site) + k] == LocaleRoutes(site, locales[li])[k]
  {
    var n, p := |locales| - 1, PerLocale(site);
    var prefix := RoutesFor(site, locales[..n]);
    RouteCount(site, locales[..n]);
    assert RoutesFor(site, locales) == prefix + LocaleRoutes(site, locales[n]);
    if li < n {
      RoutesAt(site, locales[..n], li, k);
      assert locales[..n][li] == locales[li];
      assert li * p + k < n * p by { BlockBound(li, n, k, p); }
    } else {
      assert li * p == |prefix|;
    }
  }

  /** A position inside block `li` lies before block `n` when `li < n`. */
  lemma BlockBound(li: nat, n: nat, k: nat, p: nat)
    requires li < n && k < p
    ensures li * p + k < n * p
  {
    assert (li + 1) * p == li * p + p;
    assert (li + 1) * p <= n * p;
  }

  /** Every entry lies under one of the locales and carries the common timestamp. */
  lemma {:induction false} RoutesUnderLocale(site: Site, locales: seq<string>, i: nat)
    requires i < |RoutesFor(site, locales)|
    ensures RoutesFor(site, locales)[i].lastModified == site.lastModified
    ensures exists li :: 0 <= li < |locales| && LocaleRoot(site, locales[li]) <= RoutesFor(site, locales)[i].url
  {
    var n := |locales| - 1;
    var prefix := RoutesFor(site, locales[..n]);
    var block := LocaleRoutes(site, locales[n]);
    assert RoutesFor(site, locales) == prefix + block;
    if i < |prefix| {
      RoutesUnderLocale(site, locales[..n], i);
      var li :| 0 <= li < n && LocaleRoot(site, locales[..n][li]) <= prefix[i].url;
      assert locales[..n][li] == locales[li];
    } else {
      LocaleRouteUnderRoot(site, locales[n], i - |prefix|);
    }
  }

  /** An entry of one locale's block lies under that locale's root. */
  lemma LocaleRouteUnderRoot(site: Site, locale: string, k: nat)
    requires k < PerLocale(site)
    ensures LocaleRoutes(site, locale)[k].lastModified == site.lastModified
    ensures LocaleRoot(site, locale) <= LocaleRoutes(site, locale)[k].url
  {
    LocaleRoutesAt(site, locale, k);
  }

  /** The priority rule: 10 and weekly only for a locale's root page, 8 for
      the other static pages, 7 for projects and articles; monthly except the root. */
  lemma PriorityRule(site: Site, locale: string, k: nat)
    requires k < PerLocale(site)
    ensures var r := LocaleRoutes(site, locale)[k];
      var s := |site.staticPages|;
      (r.priority == 10 <==> k < s && site.staticPages[k] == "") &&
      (r.priority == 8 <==> k < s && site.staticPages[k] != "") &&
      (r.priority == 7 <==> k >= s) &&
      (r.changeFrequency == Weekly <==> r.priority == 10)
  {
    LocaleRoutesAt(site, locale, k);
  }

  /** On the site's own lists: 2 × (4 + 4 + 1) = 18 entries. */
  lemma SiteRouteCount(lastModified: int)
    ensures |RoutesFor(TheSite(lastModified), Locales)| == 18
  {
    RouteCount(TheSite(lastModified), Locales);
  }

  /** Each locale's block opens with its root page, weekly, priority 1. */
  lemma SiteBlockStarts(lastModified: int)
    ensures |RoutesFor(TheSite(lastModified), Locales)| == 18
    ensures RoutesFor(TheSite(lastModified), Locales)[0] == Route("https://elysene.engineering/fr", lastModified, Weekly, 10)
    ensures RoutesFor(TheSite(lastModified), Locales)[9] == Route("https://elysene.engineering/en", lastModified, Weekly, 10)
  {
    var site := TheSite(lastModified);
    RoutesAt(site, Locales, 0, 0);
    RoutesAt(site, Locales, 1, 0);
    LocaleRoutesAt(site, "fr", 0);
    LocaleRoutesAt(site, "en", 0);
    SiteRouteCount(lastModified);
  }

  /** The list ends with the English article, monthly, priority 0.7. */
  lemma SiteLastRoute(lastModified: int)
    ensures |RoutesFor(TheSite(lastModified), Locales)| == 18
    ensures RoutesFor(TheSite(lastModified), Locales)[17] == ArticleRoute(TheSite(lastModified), "en", "big-data-rgpd")
  {
    var site := TheSite(lastModified);
    RoutesAt(site, Locales, 1, 8);
    LocaleRoutesAt(site, "en", 8);
    SiteRouteCount(lastModified);
  }
}
