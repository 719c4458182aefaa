/** The crawl engine of one course: a worklist over a `queue` and a `visited`
    set that navigates each page once, routes the page's final URL, its media
    sources and its anchors into three result sets, and enqueues the course
    pages it links to. The renderer is a finite map from URLs to pages. */
module Crawler {
  import opened Strings
  import opened Urls
  import opened Classifier

  /** What navigating to a URL gives: an exception, or the page the browser
      ended on with the `href` of every anchor and the `src` of every video
      and audio element and their sources, in the main document and its frames.
      When an exception cuts the scrape short after the page was reached, the
      page is `Rendered` with the sources and anchors read before it: no
      sources when scraping the media raised, and the anchors handled before
      the one whose reading or routing raised (see `CutShortScrape`). */
  datatype Page = NavigationFailure | Rendered(finalUrl: string, hrefs: seq<string>, srcs: seq<string>)

  /** The renderer: the page each URL leads to. */
  type Site = map<string, Page>

  /** Navigation to a URL the site does not know fails. */
  function Load(site: Site, url: string): Page
  {
    if url in site then site[url] else NavigationFailure
  }

  /** What one anchor contributes. */
  datatype Route =
    | Skip                // empty, a `javascript:`/`mailto:`/`#`/`tel:` link, or a `{{` template
    | ToFile(url: string)
    | ToMedia(url: string)
    | ToExternal(url: string)
    | ToQueue(url: string)
    | Ignored             // an internal link that is not a course page worth visiting

  /** The four things a crawl collects: file URLs, external links, media
      references, and the pages to visit. */
  datatype Harvest = Harvest(files: set<string>, externals: set<string>, media: set<string>, links: set<string>)

  const NoHarvest := Harvest({}, {}, {}, {})

  const SkippedPrefixes: seq<string> := ["javascript:", "mailto:", "#", "tel:"]

  const DroppedMediaPrefixes: seq<string> := ["blob:", "javascript:"]

  /** The segments of `/(assignments|discussion_topics|modules/items|announcements|pages)/`. */
  const RouteSegments: seq<string> := ["/assignments/", "/discussion_topics/", "/modules/items/",
    "/announcements/", "/pages/"]

  predicate HasRouteSegment(path: string)
  {
    exists seg :: seg in RouteSegments && Contains(path, seg)
  }

  /** `base_course_url`. */
  function CourseUrl(cid: string, domain: string): string
  {
    BaseUrl(domain) + "/courses/" + cid
  }

  /** The three entry points the queue starts with. */
  function Seeds(cid: string, domain: string): set<string>
  {
    {CourseUrl(cid, domain), CourseUrl(cid, domain) + "/modules", CourseUrl(cid, domain) + "/files"}
  }

  /** A course page worth visiting: its path names the course and one of the
      content routes. */
  predicate IsCoursePage(path: string, cid: string)
  {
    Contains(path, "/courses/" + cid) && HasRouteSegment(path)
  }

  /** `f"{parsed.scheme}://{parsed.netloc}{parsed.path}"`: the URL without its
      parameters, query and fragment. */
  function CleanUrl(u: Url): (r: string)
    requires '?' !in u.netloc && '#' !in u.netloc && '?' !in u.path && '#' !in u.path
    requires forall k :: 0 <= k < |u.scheme| ==> IsSchemeChar(u.scheme[k])
    ensures '?' !in r && '#' !in r
    ensures |u.path| <= |r| && r[|r| - |u.path|..] == u.path
  {
    var front := u.scheme + "://" + u.netloc;
    forall k | 0 <= k < |u.scheme| ensures u.scheme[k] != '?' && u.scheme[k] != '#' {
      assert IsSchemeChar(u.scheme[k]);
    }
    assert '?' !in front && '#' !in front;
    var r := front + u.path;
    assert r[|front|..] == u.path;
    r
  }

  /** The body of the anchor loop for one `href`: skipped links first, then
      any link with `/files/` (before the external test), then external links
      split into media and the rest, then qualifying course pages. */
  function RouteAnchor(h: string, cid: string, domain: string): (r: Route)
    ensures r.ToFile? ==> Contains(h, "/files/") && r.url == NormalizeFileUrl(h, cid, domain)
    ensures r.ToMedia? ==> r.url == h && IsExternalUrl(h) && IsMediaUrl(h) && !Contains(h, "/files/")
    ensures r.ToExternal? ==> r.url == h && IsExternalUrl(h) && !IsMediaUrl(h) && !Contains(h, "/files/")
    ensures r.ToQueue? ==> '?' !in r.url && '#' !in r.url && !IsExternalUrl(h) && !Contains(h, "/files/")
    ensures (h == "" || StartsWithAny(h, SkippedPrefixes) || Contains(h, "{{")) <==> r.Skip?
    ensures !r.Skip? && Contains(h, "/files/") ==> r == ToFile(NormalizeFileUrl(h, cid, domain))
    ensures !r.Skip? && !Contains(h, "/files/") && IsExternalUrl(h) ==>
      r == if IsMediaUrl(h) then ToMedia(h) else ToExternal(h)
    ensures r.Ignored? <==>
      !r.Skip? && !Contains(h, "/files/") && !IsExternalUrl(h) && !IsCoursePage(Parse(h).path, cid)
  {
    if h == "" || StartsWithAny(h, SkippedPrefixes) || Contains(h, "{{") then Skip
    else if Contains(h, "/files/") then ToFile(NormalizeFileUrl(h, cid, domain))
    else if IsExternalUrl(h) then (if IsMediaUrl(h) then ToMedia(h) else ToExternal(h))
    else
      var u := Parse(h);
      if IsCoursePage(u.path, cid) then ToQueue(CleanUrl(u)) else Ignored
  }

  /** A queued anchor is `scheme://netloc` and the anchor's own path, and that
      path names the course and a content route. */
  lemma QueuedShape(h: string, cid: string, domain: string)
    requires RouteAnchor(h, cid, domain).ToQueue?
    ensures var u := Parse(h); var q := RouteAnchor(h, cid, domain).url;
      q == u.scheme + "://" + u.netloc + u.path && IsCoursePage(u.path, cid) &&
      Contains(q, "/courses/" + cid) && '?' !in q && '#' !in q
  {
    var u := Parse(h);
    ContainsInSuffix(CleanUrl(u), u.path, "/courses/" + cid);
  }

  /** The route of every anchor of a page, in order. */
  function Routes(hrefs: seq<string>, cid: string, domain: string): (rs: seq<Route>)
    ensures |rs| == |hrefs|
  {
    seq(|hrefs|, k requires 0 <= k < |hrefs| => RouteAnchor(hrefs[k], cid, domain))
  }

  lemma RoutesAt(hrefs: seq<string>, cid: string, domain: string, k: nat)
    requires k < |hrefs|
    ensures Routes(hrefs, cid, domain)[k] == RouteAnchor(hrefs[k], cid, domain)
  {
  }

  function AddRoute(acc: Harvest, r: Route): Harvest
  {
    match r
    case ToFile(u) => acc.(files := acc.files + {u})
    case ToMedia(u) => acc.(media := acc.media + {u})
    case ToExternal(u) => acc.(externals := acc.externals + {u})
    case ToQueue(u) => acc.(links := acc.links + {u})
    case _ => acc
  }

  /** What a sequence of routes contributes, route by route. */
  function RoutesHarvest(rs: seq<Route>): Harvest
  {
    if rs == [] then NoHarvest else AddRoute(RoutesHarvest(rs[..|rs| - 1]), rs[|rs| - 1])
  }

  lemma RoutesHarvestSnoc(rs: seq<Route>, i: nat)
    requires i < |rs|
    ensures RoutesHarvest(rs[..i + 1]) == AddRoute(RoutesHarvest(rs[..i]), rs[i])
  {
    assert rs[..i + 1][..i] == rs[..i];
  }

  /** A URL is collected exactly when some route sends it to that set. */
  lemma {:induction false} RoutesHarvestMembers(rs: seq<Route>)
    ensures var a := RoutesHarvest(rs);
      (forall u :: u in a.files <==> ToFile(u) in rs) &&
      (forall u :: u in a.media <==> ToMedia(u) in rs) &&
      (forall u :: u in a.externals <==> ToExternal(u) in rs) &&
      (forall u :: u in a.links <==> ToQueue(u) in rs)
    decreases |rs|
  {
    if rs != [] {
      var init := rs[..|rs| - 1];
      RoutesHarvestMembers(init);
      assert rs == init + [rs[|rs| - 1]];
    }
  }

  /** `scrape_media_robust` keeps the non-empty sources and its caller drops
      the `blob:` and `javascript:` ones. */
  predicate KeptSrc(m: string)
  {
    m != "" && !StartsWithAny(m, DroppedMediaPrefixes)
  }

  function KeptSrcs(srcs: seq<string>): set<string>
  {
    set m | m in srcs && KeptSrc(m)
  }

  /** The final URL is a file when it holds `/files/` and either `download` or
      a file id. */
  predicate FinalIsFile(final: string)
  {
    Contains(final, "/files/") && (Contains(final, "download") || FindFileId(final, 0).Some?)
  }

  /** Where a page that ended on `final` stops: on a file, recorded in
      normalised form; outside Canvas, recorded as media or as an external
      link; `None` when the page is scraped. */
  function FinalRoute(final: string, cid: string, domain: string): (r: Option<Route>)
    ensures r.Some? ==> r.value.ToFile? || r.value.ToMedia? || r.value.ToExternal?
    ensures FinalIsFile(final) ==> r == Some(ToFile(NormalizeFileUrl(final, cid, domain)))
    ensures r.Some? && r.value.ToFile? ==> FinalIsFile(final) && r.value.url == NormalizeFileUrl(final, cid, domain)
    ensures r.Some? && r.value.ToMedia? ==>
      r.value.url == final && !FinalIsFile(final) && IsExternalUrl(final) && IsMediaUrl(final)
    ensures r.Some? && r.value.ToExternal? ==>
      r.value.url == final && !FinalIsFile(final) && IsExternalUrl(final) && !IsMediaUrl(final)
    ensures r.None? <==> !FinalIsFile(final) && !IsExternalUrl(final)
  {
    if FinalIsFile(final) then Some(ToFile(NormalizeFileUrl(final, cid, domain)))
    else if IsExternalUrl(final) then Some(if IsMediaUrl(final) then ToMedia(final) else ToExternal(final))
    else None
  }

  /** What visiting one page contributes: nothing when navigation failed;
      the final URL's route alone when the page stopped there; otherwise its
      kept media sources and the routes of its anchors. */
  function PageHarvest(page: Page, cid: string, domain: string): Harvest
  {
    match page
    case NavigationFailure => NoHarvest
    case Rendered(final, hrefs, srcs) =>
      match FinalRoute(final, cid, domain)
      case Some(r) => AddRoute(NoHarvest, r)
      case None =>
        var a := RoutesHarvest(Routes(hrefs, cid, domain));
        a.(media := KeptSrcs(srcs) + a.media)
  }

  /** A scrape cut short after the first `k` anchors keeps the page's media
      and what those anchors gave, and gives nothing the whole page would not. */
  lemma CutShortScrape(final: string, hrefs: seq<string>, srcs: seq<string>, k: nat, cid: string, domain: string)
    requires k <= |hrefs| && FinalRoute(final, cid, domain).None?
    ensures var part := PageHarvest(Rendered(final, hrefs[..k], srcs), cid, domain);
      var whole := PageHarvest(Rendered(final, hrefs, srcs), cid, domain);
      KeptSrcs(srcs) <= part.media &&
      (forall i :: 0 <= i < k && RouteAnchor(hrefs[i], cid, domain).ToFile? ==>
         RouteAnchor(hrefs[i], cid, domain).url in part.files) &&
      part.files <= whole.files && part.externals <= whole.externals &&
      part.media <= whole.media && part.links <= whole.links
  {
    var rs := Routes(hrefs, cid, domain);
    var ps := Routes(hrefs[..k], cid, domain);
    assert ps == rs[..k];
    var a, b := RoutesHarvest(ps), RoutesHarvest(rs);
    assert PageHarvest(Rendered(final, hrefs[..k], srcs), cid, domain) == a.(media := KeptSrcs(srcs) + a.media);
    assert PageHarvest(Rendered(final, hrefs, srcs), cid, domain) == b.(media := KeptSrcs(srcs) + b.media);
    RoutesHarvestPrefix(rs, k);
    RoutesHarvestMembers(ps);
    forall i | 0 <= i < k && RouteAnchor(hrefs[i], cid, domain).ToFile?
      ensures RouteAnchor(hrefs[i], cid, domain).url in a.files
    {
      assert ps[i] == RouteAnchor(hrefs[i], cid, domain);
    }
  }

  /** The first `k` routes collect part of what all of them collect. */
  lemma RoutesHarvestPrefix(rs: seq<Route>, k: nat)
    requires k <= |rs|
    ensures var a, b := RoutesHarvest(rs[..k]), RoutesHarvest(rs);
      a.files <= b.files && a.externals <= b.externals && a.media <= b.media && a.links <= b.links
  {
    var ps := rs[..k];
    var a, b := RoutesHarvest(ps), RoutesHarvest(rs);
    RoutesHarvestMembers(rs);
    RoutesHarvestMembers(ps);
    forall r | r in ps ensures r in rs {
      var i :| 0 <= i < |ps| && ps[i] == r;
      assert rs[i] == r;
    }
    forall u | u in a.files ensures u in b.files { assert ToFile(u) in ps; }
    forall u | u in a.externals ensures u in b.externals { assert ToExternal(u) in ps; }
    forall u | u in a.media ensures u in b.media { assert ToMedia(u) in ps; }
    forall u | u in a.links ensures u in b.links { assert ToQueue(u) in ps; }
  }

  /** The pages a visit enqueues, if they were not visited yet. */
  function Next(site: Site, url: string, cid: string, domain: string): set<string>
  {
    PageHarvest(Load(site, url), cid, domain).links
  }

  /** Everything a crawl of `site` could ever enqueue. */
  function Universe(site: Site, cid: string, domain: string): set<string>
  {
    Seeds(cid, domain) + set k, u | k in site && u in Next(site, k, cid, domain) :: u
  }

  lemma NextInUniverse(site: Site, url: string, cid: string, domain: string)
    ensures Next(site, url, cid, domain) <= Universe(site, cid, domain)
  {
  }

  /** A set holding the seeds and every page a member links to. */
  predicate SeedsClosed(site: Site, cid: string, domain: string, s: set<string>)
  {
    Seeds(cid, domain) <= s && forall u :: u in s ==> Next(site, u, cid, domain) <= s
  }

  /** The results of visiting the pages of `visited`. */
  function HarvestOf(site: Site, visited: set<string>, cid: string, domain: string): Harvest
  {
    Harvest(set u, f | u in visited && f in PageHarvest(Load(site, u), cid, domain).files :: f,
            set u, f | u in visited && f in PageHarvest(Load(site, u), cid, domain).externals :: f,
            set u, f | u in visited && f in PageHarvest(Load(site, u), cid, domain).media :: f,
            set u, f | u in visited && f in PageHarvest(Load(site, u), cid, domain).links :: f)
  }

  /** Visiting one more page adds exactly that page's contribution. */
  lemma HarvestOfAdd(site: Site, visited: set<string>, url: string, cid: string, domain: string)
    ensures var before := HarvestOf(site, visited, cid, domain);
      var page := PageHarvest(Load(site, url), cid, domain);
      var after := HarvestOf(site, visited + {url}, cid, domain);
      after.files == before.files + page.files && after.externals == before.externals + page.externals &&
      after.media == before.media + page.media
  {
  }

  // --------------------------------------------------------------- the loops

  /** The inner loops of `scrape_media_robust` with its caller's filter: every
      kept source is added to the media set. */
  method KeepMedia(srcs: seq<string>, media: set<string>) returns (media': set<string>)
    ensures media' == media + KeptSrcs(srcs)
  {
    media' := media;
    var i := 0;
    while i < |srcs|
      invariant 0 <= i <= |srcs|
      invariant media' == media + KeptSrcs(srcs[..i])
    {
      var m := srcs[i];
      if m != "" && !StartsWithAny(m, DroppedMediaPrefixes) {
        media' := media' + {m};
      }
      assert srcs[..i + 1] == srcs[..i] + [m];
      i := i + 1;
    }
    assert srcs[..i] == srcs;
  }

  /** The route an anchor takes at a moment when `visited` is the visited
      set: a course page already visited is not enqueued again. */
  function RouteGiven(r: Route, visited: set<string>): Route
  {
    if r.ToQueue? && r.url in visited then Ignored else r
  }

  /** One pass of the anchor loop, for an anchor whose route is `r`: the
      anchor's URL joins the set its route names (a course page only when it
      was not visited), and nothing else changes. */
  method ScrapeAnchor(r: Route, visited: set<string>,
                      queue: set<string>, files: set<string>, externals: set<string>, media: set<string>)
    returns (queue': set<string>, files': set<string>, externals': set<string>, media': set<string>)
    ensures Harvest(files', externals', media', queue') ==
      AddRoute(Harvest(files, externals, media, queue), RouteGiven(r, visited))
  {
    queue', files', externals', media' := queue, files, externals, media;
    match r
    case ToFile(u) =>
      files' := files' + {u};
    case ToMedia(u) =>
      media' := media' + {u};
    case ToExternal(u) =>
      externals' := externals' + {u};
    case ToQueue(cleanNext) =>
      if cleanNext !in visited {
        queue' := queue' + {cleanNext};
      }
    case Skip =>
    case Ignored =>
  }

  /** The anchor loop, over the routes `rs` of a page's anchors in order:
      files, media and external links are added; a course page is enqueued
      only when it has not been visited. */
  method ScrapeLinks(rs: seq<Route>, visited: set<string>,
                     queue: set<string>, files: set<string>, externals: set<string>, media: set<string>)
    returns (queue': set<string>, files': set<string>, externals': set<string>, media': set<string>)
    ensures var a := RoutesHarvest(rs);
      queue' == queue + (a.links - visited) && files' == files + a.files &&
      externals' == externals + a.externals && media' == media + a.media
  {
    queue', files', externals', media' := queue, files, externals, media;
    var i := 0;
    while i < |rs|
      invariant 0 <= i <= |rs|
      invariant var a := RoutesHarvest(rs[..i]);
        queue' == queue + (a.links - visited) && files' == files + a.files &&
        externals' == externals + a.externals && media' == media + a.media
    {
      RoutesHarvestSnoc(rs, i);
      queue', files', externals', media' := ScrapeAnchor(rs[i], visited, queue', files', externals', media');
      i := i + 1;
    }
    assert rs[..i] == rs;
  }

  /** The body of the crawl loop after `url` was marked visited. */
  method VisitPage(site: Site, url: string, cid: string, domain: string, visited: set<string>,
                   queue: set<string>, files: set<string>, externals: set<string>, media: set<string>)
    returns (queue': set<string>, files': set<string>, externals': set<string>, media': set<string>)
    ensures var p := PageHarvest(Load(site, url), cid, domain);
      queue' == queue + (p.links - visited) && files' == files + p.files &&
      externals' == externals + p.externals && media' == media + p.media
    ensures Load(site, url).NavigationFailure? ==>
      queue' == queue && files' == files && externals' == externals && media' == media
  {
    var page := Load(site, url);
    if page.NavigationFailure? {
      return queue, files, externals, media;
    }
    var stop := FinalRoute(page.finalUrl, cid, domain);
    if stop.Some? {
      queue', files', externals', media' := ScrapeAnchor(stop.value, visited, queue, files, externals, media);
      return;
    }
    var withMedia := KeepMedia(page.srcs, media);
    queue', files', externals', media' := ScrapeLinks(Routes(page.hrefs, cid, domain), visited, queue, files, externals, withMedia);
  }

  /** Every URL occurs at most once in `s`. */
  predicate Distinct(s: seq<string>)
  {
    forall i, j :: 0 <= i < j < |s| ==> s[i] != s[j]
  }

  /** The state of the worklist between two pops: the queue and the visited
      set are disjoint and within the universe, the seeds are in one of them,
      every link of a visited page is in one of them, and both lie inside
      every closed set that holds the seeds. */
  ghost predicate Frontier(site: Site, cid: string, domain: string, visited: set<string>, queue: set<string>)
  {
    && queue !! visited
    && queue <= Universe(site, cid, domain) && visited <= Universe(site, cid, domain)
    && Seeds(cid, domain) <= visited + queue
    && (forall u :: u in visited ==> Next(site, u, cid, domain) <= visited + queue)
    && (forall s :: SeedsClosed(site, cid, domain, s) ==> visited + queue <= s)
  }

  /** Popping `url`, marking it visited and enqueueing its unvisited links
      keeps the frontier invariant. */
  lemma FrontierStep(site: Site, cid: string, domain: string, visited: set<string>, queue: set<string>, url: string)
    requires Frontier(site, cid, domain, visited, queue) && url in queue
    ensures var visited' := visited + {url};
      Frontier(site, cid, domain, visited', (queue - {url}) + (Next(site, url, cid, domain) - visited'))
  {
    var visited' := visited + {url};
    var queue' := (queue - {url}) + (Next(site, url, cid, domain) - visited');
    NextInUniverse(site, url, cid, domain);
    forall s | SeedsClosed(site, cid, domain, s) ensures visited' + queue' <= s {
      assert url in s;
    }
  }

  /** One visit keeps the results equal to the contributions of the visited
      pages. */
  lemma HarvestStep(site: Site, cid: string, domain: string, visited: set<string>, url: string,
                    files: set<string>, externals: set<string>, media: set<string>,
                    files': set<string>, externals': set<string>, media': set<string>)
    requires var h := HarvestOf(site, visited, cid, domain);
      files == h.files && externals == h.externals && media == h.media
    requires var p := PageHarvest(Load(site, url), cid, domain);
      files' == files + p.files && externals' == externals + p.externals && media' == media + p.media
    ensures var h := HarvestOf(site, visited + {url}, cid, domain);
      files' == h.files && externals' == h.externals && media' == h.media
  {
    HarvestOfAdd(site, visited, url, cid, domain);
  }

  /** The invariant of the crawl loop. */
  ghost predicate CrawlState(site: Site, cid: string, domain: string, visited: set<string>, queue: set<string>,
                             files: set<string>, externals: set<string>, media: set<string>, trace: seq<string>)
  {
    && Frontier(site, cid, domain, visited, queue)
    && (var h := HarvestOf(site, visited, cid, domain);
        files == h.files && externals == h.externals && media == h.media)
    && Distinct(trace) && (forall u :: u in visited <==> u in trace)
  }

  /** One pop and visit of `url` keeps the invariant. */
  lemma CrawlStep(site: Site, cid: string, domain: string, visited: set<string>, queue: set<string>,
                  files: set<string>, externals: set<string>, media: set<string>, trace: seq<string>,
                  url: string, queue': set<string>, files': set<string>, externals': set<string>, media': set<string>)
    requires CrawlState(site, cid, domain, visited, queue, files, externals, media, trace) && url in queue
    requires var p := PageHarvest(Load(site, url), cid, domain);
      queue' == (queue - {url}) + (p.links - (visited + {url})) && files' == files + p.files &&
      externals' == externals + p.externals && media' == media + p.media
    ensures CrawlState(site, cid, domain, visited + {url}, queue', files', externals', media', trace + [url])
    ensures url !in visited && visited <= Universe(site, cid, domain)
    ensures |Universe(site, cid, domain) - (visited + {url})| < |Universe(site, cid, domain) - visited|
  {
    assert Next(site, url, cid, domain) == PageHarvest(Load(site, url), cid, domain).links;
    FrontierStep(site, cid, domain, visited, queue, url);
    HarvestStep(site, cid, domain, visited, url, files, externals, media, files', externals', media');
    TraceStep(visited, trace, url);
    Shrinks(Universe(site, cid, domain), visited, url);
  }

  /** Appending an unvisited URL to the trace keeps it free of repeats and
      equal, as a set, to the visited set. */
  lemma TraceStep(visited: set<string>, trace: seq<string>, url: string)
    requires Distinct(trace) && (forall u :: u in visited <==> u in trace) && url !in visited
    ensures Distinct(trace + [url]) && (forall u :: u in visited + {url} <==> u in trace + [url])
  {
  }

  /** Marking a URL of the universe visited leaves fewer to visit. */
  lemma Shrinks(universe: set<string>, visited: set<string>, url: string)
    requires url in universe && url !in visited
    ensures |universe - (visited + {url})| < |universe - visited|
  {
    assert universe - visited == (universe - (visited + {url})) + {url};
  }

  /** The crawl starts with the seeds queued and nothing visited. */
  lemma CrawlStart(site: Site, cid: string, domain: string)
    ensures CrawlState(site, cid, domain, {}, Seeds(cid, domain), {}, {}, {}, [])
  {
  }

  /** When the queue is empty, the visited set is closed and least, and the
      results are the contributions of the visited pages. */
  lemma CrawlEnd(site: Site, cid: string, domain: string, visited: set<string>,
                 files: set<string>, externals: set<string>, media: set<string>, trace: seq<string>)
    requires CrawlState(site, cid, domain, visited, {}, files, externals, media, trace)
    ensures Seeds(cid, domain) <= visited && visited <= Universe(site, cid, domain)
    ensures forall u :: u in visited ==> Next(site, u, cid, domain) <= visited
    ensures forall s :: SeedsClosed(site, cid, domain, s) ==> visited <= s
    ensures var h := HarvestOf(site, visited, cid, domain);
      files == h.files && externals == h.externals && media == h.media
    ensures Distinct(trace) && forall u :: u in visited <==> u in trace
  {
  }

  /** `get_course_content`: pops URLs until the queue is empty. The pages
      visited are exactly the least set that holds the seeds and every page a
      visited page links to; each is navigated exactly once (`trace` is the
      order of navigation); the results are the contributions of the visited
      pages. */
  method Crawl(site: Site, cid: string, domain: string)
    returns (files: set<string>, externals: set<string>, media: set<string>,
             visited: set<string>, ghost trace: seq<string>)
    ensures Seeds(cid, domain) <= visited && visited <= Universe(site, cid, domain)
    ensures forall u :: u in visited ==> Next(site, u, cid, domain) <= visited
    ensures forall s :: SeedsClosed(site, cid, domain, s) ==> visited <= s
    ensures var h := HarvestOf(site, visited, cid, domain);
      files == h.files && externals == h.externals && media == h.media
    ensures Distinct(trace) && forall u :: u in visited <==> u in trace
  {
    var queue := Seeds(cid, domain);
    visited := {};
    files, externals, media := {}, {}, {};
    trace := [];
    CrawlStart(site, cid, domain);
    while queue != {}
      invariant CrawlState(site, cid, domain, visited, queue, files, externals, media, trace)
      decreases |Universe(site, cid, domain) - visited|
    {
      var url :| url in queue;
      ghost var visited0, queue0, files0, externals0, media0, trace0 := visited, queue, files, externals, media, trace;
      queue := queue - {url};
      visited := visited + {url};
      trace := trace + [url];
      queue, files, externals, media := VisitPage(site, url, cid, domain, visited, queue, files, externals, media);
      // script.py's `if url in visited: continue` guard never fires: the queue
      // and the visited set are disjoint, which CrawlStep records.
      CrawlStep(site, cid, domain, visited0, queue0, files0, externals0, media0, trace0, url, queue, files, externals, media);
    }
    CrawlEnd(site, cid, domain, visited, files, externals, media, trace);
  }
}
