/** The sitemap crawl of `discover_repos_from_web_directory` in app/ingest/sources.py: a
    worklist of sitemaps, sets of visited sitemaps and pages, and a budget of page fetches. */
module SitemapCrawler {
  import opened Basics
  import opened Sorting

  type Url = string

  /** The web as the crawl sees it.  `fetch` gives the empty text for a failed fetch, which the
      source treats the same as an empty answer; the two extractors are the source's regular
      expressions; `netloc` is the network location of a URL, empty for a relative one. */
  datatype Web = Web(
    fetch: Url -> string,
    locations: string -> seq<Url>,
    repositories: string -> set<string>,
    netloc: Url -> string)
  {
    function Links(sitemap: Url): seq<Url> { if fetch(sitemap) == "" then [] else locations(fetch(sitemap)) }

    function Repos(page: Url): set<string> { if fetch(page) == "" then {} else repositories(fetch(page)) }

    predicate OnHost(u: Url, host: string) { netloc(u) == "" || netloc(u) == host }
  }

  predicate IsXml(u: Url) { |u| >= 4 && u[|u| - 4..] == ".xml" }

  // ---------------------------------------------------------------- what there is to find

  /** The sitemap s links to the same-host sitemap v. */
  predicate LinksSitemap(w: Web, host: string, s: Url, v: Url) { v in w.Links(s) && w.OnHost(v, host) && IsXml(v) }

  /** The sitemap s lists the same-host page p. */
  predicate LinksPage(w: Web, host: string, s: Url, p: Url) { p in w.Links(s) && w.OnHost(p, host) && !IsXml(p) }

  ghost predicate IsPath(w: Web, host: string, path: seq<Url>) {
    path != [] && forall i | 0 <= i < |path| - 1 :: LinksSitemap(w, host, path[i], path[i + 1])
  }

  ghost predicate Reaches(w: Web, host: string, root: Url, v: Url) {
    exists path :: IsPath(w, host, path) && path[0] == root && path[|path| - 1] == v
  }

  /** The link graph is finite: the sitemaps that can be met all lie in the universe. */
  ghost predicate Closed(w: Web, host: string, root: Url, universe: set<Url>) {
    root in universe && forall s, v | s in universe && LinksSitemap(w, host, s, v) :: v in universe
  }

  ghost function Sitemaps(w: Web, host: string, root: Url, universe: set<Url>): set<Url> {
    set v | v in universe && Reaches(w, host, root, v)
  }

  ghost function Pages(w: Web, host: string, root: Url, universe: set<Url>): set<Url> {
    set s, p | s in Sitemaps(w, host, root, universe) && p in w.Links(s) && LinksPage(w, host, s, p) :: p
  }

  ghost function AllRepos(w: Web, pages: set<Url>): set<string> {
    set p, r | p in pages && r in w.Repos(p) :: r
  }

  lemma RootIsReached(w: Web, host: string, root: Url)
    ensures Reaches(w, host, root, root)
  {
    assert IsPath(w, host, [root]);
  }

  lemma ReachesFurther(w: Web, host: string, root: Url, s: Url, v: Url)
    requires Reaches(w, host, root, s) && LinksSitemap(w, host, s, v)
    ensures Reaches(w, host, root, v)
  {
    var path :| IsPath(w, host, path) && path[0] == root && path[|path| - 1] == s;
    var longer := path + [v];
    forall i | 0 <= i < |longer| - 1 ensures LinksSitemap(w, host, longer[i], longer[i + 1]) {
      if i < |path| - 1 {
        assert LinksSitemap(w, host, path[i], path[i + 1]);
      }
    }
    assert IsPath(w, host, longer);
  }

  /** A set that holds the root and is closed under links holds every reachable sitemap. */
  lemma {:induction false} ClosedHoldsPath(w: Web, host: string, visited: set<Url>, path: seq<Url>)
    requires IsPath(w, host, path) && path[0] in visited
    requires forall s, v | s in visited && LinksSitemap(w, host, s, v) :: v in visited
    ensures path[|path| - 1] in visited
    decreases |path|
  {
    if |path| == 1 {
    } else {
      assert LinksSitemap(w, host, path[0], path[1]);
      var rest := path[1..];
      forall i | 0 <= i < |rest| - 1 ensures LinksSitemap(w, host, rest[i], rest[i + 1]) {
        assert LinksSitemap(w, host, path[i + 1], path[i + 1 + 1]);
      }
      ClosedHoldsPath(w, host, visited, rest);
    }
  }

  lemma ClosedHoldsAll(w: Web, host: string, root: Url, universe: set<Url>, visited: set<Url>)
    requires root in visited
    requires forall s, v | s in visited && LinksSitemap(w, host, s, v) :: v in visited
    ensures Sitemaps(w, host, root, universe) <= visited
  {
    forall u | u in Sitemaps(w, host, root, universe) ensures u in visited {
      var path :| IsPath(w, host, path) && path[0] == root && path[|path| - 1] == u;
      ClosedHoldsPath(w, host, visited, path);
    }
  }

  // ---------------------------------------------------------------- the crawl

  /** What the scan of one sitemap changes: the worklist, the visited pages, the pages fetched (in
      order), the repositories found, and the budget. */
  datatype Front = Front(pending: seq<Url>, pages: set<Url>, fetched: seq<Url>, found: set<string>, budget: int)

  /** The link has been dealt with. */
  predicate Seen(w: Web, host: string, u: Url, sitemaps: set<Url>, f: Front) {
    w.OnHost(u, host) ==> if IsXml(u) then u in sitemaps || u in f.pending else u in f.pages
  }

  /** The books of the crawl: pages fetched once each, counted against the budget, and what they
      hold collected.  A budget of -1 stands for one page visited but no longer fetched. */
  ghost predicate Booked(w: Web, base: set<string>, max: int, f: Front) {
    && Distinct(f.fetched)
    && Elements(f.fetched) <= f.pages
    && f.found == base + AllRepos(w, Elements(f.fetched))
    && f.budget == max - |f.pages| >= -1
    && (if f.budget >= 0 then Elements(f.fetched) == f.pages else |f.fetched| == max)
  }

  lemma BookPage(w: Web, base: set<string>, max: int, f: Front, p: Url)
    requires Booked(w, base, max, f) && f.budget >= 0 && p !in f.pages
    ensures var g := f.(pages := f.pages + {p}, budget := f.budget - 1);
            Booked(w, base, max,
                if g.budget < 0 then g else g.(fetched := g.fetched + [p], found := g.found + w.Repos(p)))
  {
    var longer := f.fetched + [p];
    assert Elements(longer) == Elements(f.fetched) + {p};
    assert AllRepos(w, Elements(longer)) == AllRepos(w, Elements(f.fetched)) + w.Repos(p);
    DistinctCount(f.fetched);
  }

  /** The inner loop: go through the links of one sitemap. */
  method ScanSitemap(w: Web, host: string, links: seq<Url>, sitemaps: set<Url>, f0: Front,
                     ghost base: set<string>, ghost max: int) returns (f: Front)
    requires Booked(w, base, max, f0) && f0.budget >= 0
    ensures Booked(w, base, max, f)
    ensures f0.pending <= f.pending && f0.pages <= f.pages
    ensures forall u | u in f.pending :: u in f0.pending || (u in links && w.OnHost(u, host) && IsXml(u))
    ensures forall p | p in f.pages :: p in f0.pages || (p in links && w.OnHost(p, host) && !IsXml(p))
    ensures f.budget >= 0 ==> forall u | u in links :: Seen(w, host, u, sitemaps, f)
  {
    f := f0;
    for i := 0 to |links|
      invariant Booked(w, base, max, f) && f.budget >= 0
      invariant f0.pending <= f.pending && f0.pages <= f.pages
      invariant forall u | u in f.pending :: u in f0.pending || (u in links && w.OnHost(u, host) && IsXml(u))
      invariant forall p | p in f.pages :: p in f0.pages || (p in links && w.OnHost(p, host) && !IsXml(p))
      invariant forall j | 0 <= j < i :: Seen(w, host, links[j], sitemaps, f)
    {
      var loc := links[i];
      if !w.OnHost(loc, host) {
        continue;
      }
      if IsXml(loc) {
        if loc !in sitemaps {
          f := f.(pending := f.pending + [loc]);
        }
        continue;
      }
      if loc in f.pages {
        continue;
      }
      BookPage(w, base, max, f, loc);
      f := f.(pages := f.pages + {loc}, budget := f.budget - 1);
      if f.budget < 0 {
        break;
      }
      f := f.(fetched := f.fetched + [loc], found := f.found + w.Repos(loc));
    }
  }

  /** Everything visited or pending can be reached, and every link of a visited sitemap has been
      dealt with, unless the budget ran out. */
  ghost predicate Sound(w: Web, host: string, root: Url, universe: set<Url>, sitemaps: set<Url>, f: Front) {
    && sitemaps <= Sitemaps(w, host, root, universe)
    && (forall u | u in f.pending :: u in Sitemaps(w, host, root, universe))
    && f.pages <= Pages(w, host, root, universe)
    && (root in sitemaps || root in f.pending)
  }

  ghost predicate Complete(w: Web, host: string, sitemaps: set<Url>, f: Front) {
    forall s, u | s in sitemaps && u in w.Links(s) :: Seen(w, host, u, sitemaps, f)
  }

  lemma ScanKeepsSound(
      w: Web, host: string, root: Url, universe: set<Url>, sitemaps: set<Url>, current: Url, f0: Front, f: Front)
    requires Closed(w, host, root, universe)
    requires Sound(w, host, root, universe, sitemaps, f0) && current in sitemaps
    requires f0.pending <= f.pending
    requires forall u | u in f.pending :: u in f0.pending || (u in w.Links(current) && w.OnHost(u, host) && IsXml(u))
    requires forall p | p in f.pages :: p in f0.pages || (p in w.Links(current) && w.OnHost(p, host) && !IsXml(p))
    ensures Sound(w, host, root, universe, sitemaps, f)
  {
    forall u | u in f.pending ensures u in Sitemaps(w, host, root, universe) {
      if u !in f0.pending {
        assert LinksSitemap(w, host, current, u);
        ReachesFurther(w, host, root, current, u);
      }
    }
    forall p | p in f.pages ensures p in Pages(w, host, root, universe) {
      if p !in f0.pages {
        assert LinksPage(w, host, current, p);
      }
    }
  }

  lemma SkipKeepsComplete(w: Web, host: string, sitemaps: set<Url>, before: Front, f: Front)
    requires Complete(w, host, sitemaps, before) && before.pending != [] && before.pending[0] in sitemaps
    requires f == before.(pending := before.pending[1..])
    ensures Complete(w, host, sitemaps, f)
  {
    forall s, u | s in sitemaps && u in w.Links(s) ensures Seen(w, host, u, sitemaps, f) {
      assert Seen(w, host, u, sitemaps, before);
    }
  }

  lemma ScanKeepsComplete(w: Web, host: string, done: set<Url>, current: Url, before: Front, f0: Front, f: Front)
    requires Complete(w, host, done, before) && before.pending != [] && before.pending[0] == current
    requires f0 == before.(pending := before.pending[1..])
    requires f0.pending <= f.pending && f0.pages <= f.pages
    requires forall u | u in w.Links(current) :: Seen(w, host, u, done + {current}, f)
    ensures Complete(w, host, done + {current}, f)
  {
    assert before.pending == [current] + f0.pending;
    forall s, u | s in done + {current} && u in w.Links(s) ensures Seen(w, host, u, done + {current}, f) {
      if s != current {
        assert Seen(w, host, u, done, before);
      }
    }
  }

  /** At the end: with budget left nothing reachable was missed; and the number of pages fetched is
      what the budget and the site allow. */
  lemma AtTheEnd(
      w: Web, host: string, root: Url, universe: set<Url>, sitemaps: set<Url>, f: Front, base: set<string>, max: int)
    requires Booked(w, base, max, f) && Sound(w, host, root, universe, sitemaps, f) && max > 0
    requires f.budget > 0 ==> f.pending == [] && Complete(w, host, sitemaps, f)
    ensures |f.fetched| == Min(|Pages(w, host, root, universe)|, max)
    ensures |Pages(w, host, root, universe)| < max ==> sitemaps == Sitemaps(w, host, root, universe)
    ensures |Pages(w, host, root, universe)| <= max ==> Elements(f.fetched) == Pages(w, host, root, universe)
  {
    var S, P := Sitemaps(w, host, root, universe), Pages(w, host, root, universe);
    DistinctCount(f.fetched);
    SubsetCount(f.pages, P);
    SubsetCount(Elements(f.fetched), P);
    if f.budget > 0 {
      forall s, v | s in sitemaps && LinksSitemap(w, host, s, v) ensures v in sitemaps {
        assert Seen(w, host, v, sitemaps, f);
      }
      ClosedHoldsAll(w, host, root, universe, sitemaps);
      forall p | p in P ensures p in f.pages {
        var s :| s in S && p in w.Links(s) && LinksPage(w, host, s, p);
        assert Seen(w, host, p, sitemaps, f);
      }
      assert P == f.pages;
    }
  }

  /** What the crawl promises. */
  ghost predicate Crawled(w: Web, directoryUrl: Url, sitemapUrl: Url, max: int, universe: set<Url>,
                          repos: seq<string>, fetchedSitemaps: seq<Url>, fetchedPages: seq<Url>)
  {
    var host, base := w.netloc(directoryUrl), w.Repos(directoryUrl);
    var S, P := Sitemaps(w, host, sitemapUrl, universe), Pages(w, host, sitemapUrl, universe);
    var runs := sitemapUrl != "" && max > 0;
    // Nothing is fetched twice, and nothing that cannot be reached.
    && Distinct(fetchedSitemaps) && Distinct(fetchedPages)
    && Elements(fetchedSitemaps) <= S && Elements(fetchedPages) <= P
    // The result is what the root and the fetched pages hold, in order, without repetition.
    && Elements(repos) == base + AllRepos(w, Elements(fetchedPages))
    && Sorted(repos, StringLe) && Distinct(repos)
    && (!runs ==> fetchedSitemaps == [] && fetchedPages == [])
    // Exactly as many pages are fetched as the budget allows and the site has.
    && (runs ==> |fetchedPages| == Min(|P|, max))
    // With budget left over, every reachable sitemap was fetched.
    && (runs && |P| < max ==> Elements(fetchedSitemaps) == S)
    // The crawl is complete when the site has no more pages than the budget.
    && (runs && |P| <= max ==> Elements(repos) == base + AllRepos(w, P))
  }

  method DiscoverRepos(w: Web, directoryUrl: Url, sitemapUrl: Url, maxSitemapPages: int, ghost universe: set<Url>)
    returns (repos: seq<string>, fetchedSitemaps: seq<Url>, fetchedPages: seq<Url>)
    requires Closed(w, w.netloc(directoryUrl), sitemapUrl, universe)
    ensures Crawled(w, directoryUrl, sitemapUrl, maxSitemapPages, universe, repos, fetchedSitemaps, fetchedPages)
  {
    var host := w.netloc(directoryUrl);
    ghost var base := w.Repos(directoryUrl);
    var f := Front([sitemapUrl], {}, [], w.Repos(directoryUrl), maxSitemapPages);
    fetchedSitemaps, fetchedPages := [], [];
    if sitemapUrl == "" || maxSitemapPages <= 0 {
      repos := SortedElements(f.found);
      return;
    }

    var visitedSitemaps: set<Url> := {};
    RootIsReached(w, host, sitemapUrl);

    while f.pending != [] && f.budget > 0
      invariant Distinct(fetchedSitemaps) && Elements(fetchedSitemaps) == visitedSitemaps
      invariant Booked(w, base, maxSitemapPages, f)
      invariant Sound(w, host, sitemapUrl, universe, visitedSitemaps, f)
      invariant f.budget >= 0 ==> Complete(w, host, visitedSitemaps, f)
      decreases Sitemaps(w, host, sitemapUrl, universe) - visitedSitemaps, |f.pending|
    {
      var current := f.pending[0];
      ghost var before := f;
      f := f.(pending := f.pending[1..]);
      assert before.pending == [current] + f.pending;
      if current in visitedSitemaps {
        SkipKeepsComplete(w, host, visitedSitemaps, before, f);
        continue;
      }
      ghost var done := visitedSitemaps;
      visitedSitemaps := visitedSitemaps + {current};
      fetchedSitemaps := fetchedSitemaps + [current];
      ghost var f0 := f;
      assert Sound(w, host, sitemapUrl, universe, visitedSitemaps, f0);
      f := ScanSitemap(w, host, w.Links(current), visitedSitemaps, f, base, maxSitemapPages);
      ScanKeepsSound(w, host, sitemapUrl, universe, visitedSitemaps, current, f0, f);
      if f.budget >= 0 {
        ScanKeepsComplete(w, host, done, current, before, f0, f);
      }
    }

    AtTheEnd(w, host, sitemapUrl, universe, visitedSitemaps, f, base, maxSitemapPages);
    fetchedPages := f.fetched;
    repos := SortedElements(f.found);
  }
}
