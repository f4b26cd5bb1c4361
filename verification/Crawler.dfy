/**
 The crawl of one site: a bounded breadth-first search over the internal links of its
 pages, with robots rules, asset inventory and progress counters. The web is an arbitrary
 function from URLs to responses.
 */
module Crawler {
  import opened Basics

  const MaxPages: nat := 500
  const MaxDepth: nat := 8
  const MaxLinksPerPage: nat := 1000

  type Url = string

  /** `html` also covers responses without a content type. `links` and `resources` are deduplicated. */
  datatype Response = Response(failed: bool, status: int, html: bool, mediaClass: string, links: seq<Url>, resources: seq<Url>)

  datatype Kind = Unusable | Internal | External

  /**
   Everything a crawl depends on: the root, the sitemap contents, the robots rules, what a
   fetch returns, and how URLs are parsed. `assetClass` is "" for a URL that is not an asset.
   */
  datatype Site = Site(
    root: Url, sitemaps: seq<seq<Url>>, rules: seq<string>,
    fetch: Url -> Response, path: Url -> string, kind: Url -> Kind, assetClass: Url -> string)

  datatype Queued = Queued(url: Url, depth: nat)

  datatype Page = Page(url: Url, status: int, depth: nat, error: bool, ok: bool)

  /** The report of a crawl, with the sets it was computed from. */
  datatype Report = Report(
    pages: seq<Page>, visited: set<Url>, known: set<Url>, fetched: seq<Url>, assets: map<Url, string>,
    discovered: int, failed: nat, sitemapPages: set<Url>, internalLinks: nat, externalLinks: nat,
    classes: seq<nat>, limitReached: bool)

  // ---------------------------------------------------------------------------
  // The graph a crawl explores

  predicate Disallowed(rules: seq<string>, path: string) {
    exists r :: r in rules && (r == "/" || r <= path)
  }

  predicate IsAsset(s: Site, u: Url) {
    s.assetClass(u) != ""
  }

  predicate Allowed(s: Site, u: Url) {
    !Disallowed(s.rules, s.path(u))
  }

  predicate Succeeds(r: Response) {
    !r.failed && r.status < 400
  }

  /** A successful response that is not HTML is a resource, not a page. */
  predicate IsResource(s: Site, u: Url) {
    Succeeds(s.fetch(u)) && !s.fetch(u).html
  }

  function Links(s: Site, u: Url): seq<Url> {
    var links := s.fetch(u).links;
    if |links| > MaxLinksPerPage then links[..MaxLinksPerPage] else links
  }

  predicate Followable(s: Site, v: Url) {
    s.kind(v) == Internal && !IsAsset(s, v)
  }

  /** The crawl may go from `u` to `v`. */
  predicate Follows(s: Site, u: Url, v: Url) {
    Allowed(s, u) && Succeeds(s.fetch(u)) && s.fetch(u).html && v in Links(s, u) && Followable(s, v)
  }

  ghost predicate Seed(s: Site, u: Url) {
    u == s.root || (!IsAsset(s, u) && exists i :: 0 <= i < |s.sitemaps| && u in s.sitemaps[i])
  }

  /** `u` is at most `n` followed links away from a seed. */
  ghost predicate Within(s: Site, n: nat, u: Url) {
    if n == 0 then Seed(s, u)
    else Within(s, n - 1, u) || exists x :: Within(s, n - 1, x) && Follows(s, x, u)
  }

  /** `n` is the shortest distance of `u` from the seeds. */
  ghost predicate Distance(s: Site, u: Url, n: nat) {
    Within(s, n, u) && forall k: nat :: k < n ==> !Within(s, k, u)
  }

  lemma {:induction false} WithinGrows(s: Site, m: nat, n: nat, u: Url)
    requires m <= n && Within(s, m, u)
    ensures Within(s, n, u)
    decreases n
  {
    if m < n {
      WithinGrows(s, m, n - 1, u);
    }
  }

  lemma DistanceBound(s: Site, u: Url, d: nat, n: nat)
    requires Distance(s, u, d) && Within(s, n, u)
    ensures d <= n
  {
  }

  // ---------------------------------------------------------------------------
  // The frontier invariant

  ghost predicate Entries(queue: seq<Queued>, seen: set<Url>, depth: map<Url, nat>) {
    forall k :: 0 <= k < |queue| ==> queue[k].url in depth && queue[k].depth == depth[queue[k].url] && queue[k].url !in seen
  }

  ghost predicate DistinctUrls(queue: seq<Queued>) {
    forall i, j :: 0 <= i < j < |queue| ==> queue[i].url != queue[j].url
  }

  /** Depths never fall along the queue and span at most two levels. */
  ghost predicate Level(queue: seq<Queued>) {
    forall i, j :: 0 <= i < j < |queue| ==> queue[i].depth <= queue[j].depth <= queue[i].depth + 1
  }

  /** Known URLs that are not visited are waiting in the queue. */
  ghost predicate Pending(queue: seq<Queued>, seen: set<Url>, depth: map<Url, nat>) {
    forall u :: u in depth && u !in seen ==> exists k :: 0 <= k < |queue| && queue[k].url == u
  }

  ghost predicate QueueOk(queue: seq<Queued>, seen: set<Url>, depth: map<Url, nat>) {
    Entries(queue, seen, depth) && DistinctUrls(queue) && Level(queue) && Pending(queue, seen, depth)
  }

  /** Every known URL carries its exact distance, and seeds are known. */
  ghost predicate DepthsExact(s: Site, depth: map<Url, nat>) {
    && (forall u :: u in depth ==> depth[u] <= MaxDepth && Distance(s, u, depth[u]))
    && (forall u :: Seed(s, u) ==> u in depth)
  }

  /** The links of the visited URLs in `done` lead to known URLs. */
  ghost predicate Closed(s: Site, done: set<Url>, depth: map<Url, nat>) {
    forall u, v :: u in done && u in depth && depth[u] < MaxDepth && Follows(s, u, v) ==> v in depth
  }

  /** If all URLs nearer than `n` are expanded, every URL within `n` is known. */
  lemma {:induction false} Covered(s: Site, done: set<Url>, depth: map<Url, nat>, n: nat, u: Url)
    requires DepthsExact(s, depth) == true && Closed(s, done, depth) == true && n <= MaxDepth
    requires forall x :: x in depth && depth[x] < n ==> x in done
    requires Within(s, n, u)
    ensures u in depth && depth[u] <= n
    decreases n
  {
    if n > 0 {
      if Within(s, n - 1, u) {
        Covered(s, done, depth, n - 1, u);
      } else {
        var x :| Within(s, n - 1, x) && Follows(s, x, u);
        Covered(s, done, depth, n - 1, x);
        DistanceBound(s, u, depth[u], n);
      }
    }
  }

  /** The head of the queue: everything nearer has been visited. */
  lemma HeadCovers(s: Site, queue: seq<Queued>, seen: set<Url>, depth: map<Url, nat>, u: Url)
    requires QueueOk(queue, seen, depth) && DepthsExact(s, depth) && Closed(s, seen, depth) && queue != []
    requires Within(s, queue[0].depth, u)
    ensures u in depth && depth[u] <= queue[0].depth
    ensures depth[u] < queue[0].depth ==> u in seen
  {
    Covered(s, seen, depth, queue[0].depth, u);
  }

  /** A drained queue: the visited URLs are exactly those within the depth limit. */
  lemma DrainedExact(s: Site, seen: set<Url>, depth: map<Url, nat>, u: Url)
    requires QueueOk([], seen, depth) && DepthsExact(s, depth) && Closed(s, seen, depth) && seen <= depth.Keys
    ensures u in seen <==> Within(s, MaxDepth, u)
  {
    if Within(s, MaxDepth, u) {
      Covered(s, seen, depth, MaxDepth, u);
    }
    if u in seen {
      WithinGrows(s, depth[u], MaxDepth, u);
    }
  }

  // ---------------------------------------------------------------------------
  // Following the links of one page

  function Urls(qs: seq<Queued>): set<Url> {
    set q | q in qs :: q.url
  }

  lemma UrlsAppend(qs: seq<Queued>, q: Queued)
    ensures Urls(qs + [q]) == Urls(qs) + {q.url}
  {
  }

  /** New queue entries for the links of a page at depth `d`: each followable, unknown and queued once. */
  ghost predicate Fresh(s: Site, links: seq<Url>, d: nat, known: set<Url>, qs: seq<Queued>) {
    && (forall k :: 0 <= k < |qs| ==> qs[k].depth == d + 1 && qs[k].url !in known && qs[k].url in links && Followable(s, qs[k].url))
    && DistinctUrls(qs)
    && (d >= MaxDepth ==> qs == [])
  }

  function LinksOfKind(s: Site, links: seq<Url>, kind: Kind): nat {
    if links == [] then 0
    else LinksOfKind(s, links[..|links| - 1], kind) + if s.kind(links[|links| - 1]) == kind then 1 else 0
  }

  lemma LinksStep(s: Site, links: seq<Url>, i: nat)
    requires i < |links|
    ensures LinksOfKind(s, links[..i + 1], Internal) == LinksOfKind(s, links[..i], Internal) + if s.kind(links[i]) == Internal then 1 else 0
    ensures LinksOfKind(s, links[..i + 1], External) == LinksOfKind(s, links[..i], External) + if s.kind(links[i]) == External then 1 else 0
  {
    assert links[..i + 1][..i] == links[..i];
  }

  /** The queue entries and known URLs after the first `i` links. */
  ghost predicate Queueing(s: Site, links: seq<Url>, d: nat, known0: set<Url>, i: nat, added: seq<Queued>, known: set<Url>)
    requires i <= |links|
  {
    && Fresh(s, links, d, known0, added) && known == known0 + Urls(added)
    && (d < MaxDepth ==> forall k :: 0 <= k < i && Followable(s, links[k]) ==> links[k] in known)
  }

  /** The inventory after the first `i` links. */
  ghost predicate Naming(s: Site, links: seq<Url>, assets0: map<Url, string>, i: nat, assets: map<Url, string>)
    requires i <= |links|
  {
    && (forall u :: u in assets0 ==> u in assets && assets[u] == assets0[u])
    && (forall k :: 0 <= k < i && s.kind(links[k]) == Internal && IsAsset(s, links[k]) ==> links[k] in assets)
    && (forall u :: u in assets && u !in assets0 ==> u in links && s.kind(u) == Internal && IsAsset(s, u) && assets[u] == s.assetClass(u))
  }

  lemma QueueOne(s: Site, links: seq<Url>, d: nat, known0: set<Url>, i: nat, added: seq<Queued>, known: set<Url>)
    requires i < |links| && Queueing(s, links, d, known0, i, added, known)
    requires Followable(s, links[i]) && links[i] !in known && d < MaxDepth
    ensures Queueing(s, links, d, known0, i + 1, added + [Queued(links[i], d + 1)], known + {links[i]}) == true
  {
    UrlsAppend(added, Queued(links[i], d + 1));
    assert forall q :: q in added ==> q.url in Urls(added);
    assert forall k :: 0 <= k < |added| ==> added[k].url != links[i];
  }

  lemma QueueNone(s: Site, links: seq<Url>, d: nat, known0: set<Url>, i: nat, added: seq<Queued>, known: set<Url>)
    requires i < |links| && Queueing(s, links, d, known0, i, added, known)
    requires !Followable(s, links[i]) || links[i] in known || d >= MaxDepth
    ensures Queueing(s, links, d, known0, i + 1, added, known) == true
  {
  }

  lemma NameOne(s: Site, links: seq<Url>, assets0: map<Url, string>, i: nat, assets: map<Url, string>, assets': map<Url, string>)
    requires i < |links| && Naming(s, links, assets0, i, assets)
    requires assets' == if s.kind(links[i]) == Internal && IsAsset(s, links[i]) && links[i] !in assets
                        then assets[links[i] := s.assetClass(links[i])] else assets
    ensures Naming(s, links, assets0, i + 1, assets') == true
  {
  }

  method FollowLinks(s: Site, links: seq<Url>, d: nat, known0: set<Url>, assets0: map<Url, string>)
    returns (added: seq<Queued>, known: set<Url>, assets: map<Url, string>, internalLinks: nat, externalLinks: nat)
    ensures Queueing(s, links, d, known0, |links|, added, known) == true
    ensures Naming(s, links, assets0, |links|, assets) == true
    ensures internalLinks == LinksOfKind(s, links, Internal) && externalLinks == LinksOfKind(s, links, External)
  {
    added, known, assets, internalLinks, externalLinks := [], known0, assets0, 0, 0;
    for i := 0 to |links|
      invariant Queueing(s, links, d, known0, i, added, known) == true
      invariant Naming(s, links, assets0, i, assets) == true
      invariant internalLinks == LinksOfKind(s, links[..i], Internal) && externalLinks == LinksOfKind(s, links[..i], External)
    {
      var target := links[i];
      LinksStep(s, links, i);
      ghost var before := assets;
      if s.kind(target) == Internal && !IsAsset(s, target) && target !in known && d < MaxDepth {
        QueueOne(s, links, d, known0, i, added, known);
      } else {
        QueueNone(s, links, d, known0, i, added, known);
      }
      if s.kind(target) == Internal {
        internalLinks := internalLinks + 1;
        if IsAsset(s, target) {
          if target !in assets {
            assets := assets[target := s.assetClass(target)];
          }
        } else if target !in known && d < MaxDepth {
          known := known + {target};
          added := added + [Queued(target, d + 1)];
        }
      } else if s.kind(target) == External {
        externalLinks := externalLinks + 1;
      }
      NameOne(s, links, assets0, i, before, assets);
    }
    assert links[..|links|] == links;
  }

  /** The class of a referenced asset; the class of an unknown one is "other". */
  function ReferenceClass(s: Site, u: Url): string {
    if s.assetClass(u) == "" then "other" else s.assetClass(u)
  }

  /** A page names an asset: by an internal link to it, or as an internal resource. */
  predicate Mentions(s: Site, page: Url, u: Url) {
    s.kind(u) == Internal && ((u in Links(s, page) && IsAsset(s, u)) || u in s.fetch(page).resources)
  }

  method InventoryResources(s: Site, resources: seq<Url>, assets0: map<Url, string>) returns (assets: map<Url, string>)
    ensures forall u :: u in assets0 ==> u in assets && assets[u] == assets0[u]
    ensures forall u :: u in assets <==> u in assets0 || (u in resources && s.kind(u) == Internal)
    ensures forall u :: u in assets && u !in assets0 ==> assets[u] == ReferenceClass(s, u)
  {
    assets := assets0;
    for i := 0 to |resources|
      invariant forall u :: u in assets0 ==> u in assets && assets[u] == assets0[u]
      invariant forall u :: u in assets <==> u in assets0 || (u in resources[..i] && s.kind(u) == Internal)
      invariant forall u :: u in assets && u !in assets0 ==> assets[u] == ReferenceClass(s, u)
    {
      var res := resources[i];
      assert resources[..i + 1] == resources[..i] + [res];
      if s.kind(res) == Internal && res !in assets {
        assets := assets[res := if s.assetClass(res) == "" then "other" else s.assetClass(res)];
      }
    }
    assert resources[..|resources|] == resources;
  }

  // ---------------------------------------------------------------------------
  // One step of the page loop

  ghost function Deepen(depth: map<Url, nat>, added: seq<Queued>, d: nat): map<Url, nat> {
    map u | u in depth.Keys + Urls(added) :: if u in depth then depth[u] else d + 1
  }

  /** The loop's view of the search: a frontier whose visited part is expanded. */
  ghost predicate Searching(s: Site, queue: seq<Queued>, seen: set<Url>, depth: map<Url, nat>) {
    QueueOk(queue, seen, depth) && DepthsExact(s, depth) && Closed(s, seen, depth) && seen <= depth.Keys
  }

  lemma FreshDistance(s: Site, queue: seq<Queued>, seen: set<Url>, depth: map<Url, nat>, v: Url)
    requires Searching(s, queue, seen, depth) && queue != []
    requires Follows(s, queue[0].url, v) && v !in depth
    ensures Distance(s, v, queue[0].depth + 1)
  {
    var d := queue[0].depth;
    assert Within(s, d, queue[0].url);
    forall k: nat | k < d + 1 ensures !Within(s, k, v) {
      if Within(s, k, v) {
        WithinGrows(s, k, d, v);
        HeadCovers(s, queue, seen, depth, v);
      }
    }
  }

  lemma VisitKeepsDepths(s: Site, queue: seq<Queued>, seen: set<Url>, depth: map<Url, nat>, added: seq<Queued>, depth': map<Url, nat>)
    requires Searching(s, queue, seen, depth) && queue != [] && depth' == Deepen(depth, added, queue[0].depth)
    requires Fresh(s, Links(s, queue[0].url), queue[0].depth, depth.Keys, added)
    requires forall k :: 0 <= k < |added| ==> Follows(s, queue[0].url, added[k].url)
    ensures DepthsExact(s, depth') == true
  {
    forall u | u in depth' ensures depth'[u] <= MaxDepth && Distance(s, u, depth'[u]) {
      if u !in depth {
        var k :| 0 <= k < |added| && added[k].url == u;
        FreshDistance(s, queue, seen, depth, u);
      }
    }
  }

  lemma VisitKeepsClosed(s: Site, q: Queued, seen: set<Url>, depth: map<Url, nat>, added: seq<Queued>, depth': map<Url, nat>)
    requires Closed(s, seen, depth) && seen <= depth.Keys && q.url in depth && depth[q.url] == q.depth
    requires depth' == Deepen(depth, added, q.depth)
    requires q.depth < MaxDepth ==> forall v :: Follows(s, q.url, v) ==> v in depth || v in Urls(added)
    ensures Closed(s, seen + {q.url}, depth') == true
  {
  }

  /** Visiting the head and queueing its new links keeps the search going correctly. */
  lemma VisitKeeps(s: Site, queue: seq<Queued>, seen: set<Url>, depth: map<Url, nat>, added: seq<Queued>)
    requires Searching(s, queue, seen, depth) && queue != []
    requires Fresh(s, Links(s, queue[0].url), queue[0].depth, depth.Keys, added)
    requires forall k :: 0 <= k < |added| ==> Follows(s, queue[0].url, added[k].url)
    requires queue[0].depth < MaxDepth ==>
               forall v :: Follows(s, queue[0].url, v) ==> v in depth || v in Urls(added)
    ensures Searching(s, queue[1..] + added, seen + {queue[0].url}, Deepen(depth, added, queue[0].depth))
  {
    VisitKeepsEntries(queue, seen, depth, added);
    VisitKeepsPending(queue, seen, depth, added);
    VisitKeepsOrder(queue, depth, added);
    VisitKeepsDepths(s, queue, seen, depth, added, Deepen(depth, added, queue[0].depth));
    VisitKeepsClosed(s, queue[0], seen, depth, added, Deepen(depth, added, queue[0].depth));
  }

  lemma VisitKeepsEntries(queue: seq<Queued>, seen: set<Url>, depth: map<Url, nat>, added: seq<Queued>)
    requires Entries(queue, seen, depth) && DistinctUrls(queue) && queue != [] && seen <= depth.Keys
    requires forall k :: 0 <= k < |added| ==> added[k].depth == queue[0].depth + 1 && added[k].url !in depth
    ensures Entries(queue[1..] + added, seen + {queue[0].url}, Deepen(depth, added, queue[0].depth))
  {
    var queue' := queue[1..] + added;
    forall k | 0 <= k < |queue'|
      ensures queue'[k] in added || (k < |queue| - 1 && queue'[k] == queue[k + 1])
    {
      if k >= |queue| - 1 {
        assert queue'[k] == added[k - (|queue| - 1)];
      }
    }
  }

  lemma VisitKeepsPending(queue: seq<Queued>, seen: set<Url>, depth: map<Url, nat>, added: seq<Queued>)
    requires Pending(queue, seen, depth) && queue != []
    ensures Pending(queue[1..] + added, seen + {queue[0].url}, Deepen(depth, added, queue[0].depth))
  {
    var queue' := queue[1..] + added;
    forall u | u in depth.Keys + Urls(added) && u !in seen + {queue[0].url} ensures exists k :: 0 <= k < |queue'| && queue'[k].url == u {
      if u in depth {
        var k :| 0 <= k < |queue| && queue[k].url == u;
        assert queue'[k - 1] == queue[k];
      } else {
        var k :| 0 <= k < |added| && added[k].url == u;
        assert queue'[|queue| - 1 + k] == added[k];
      }
    }
  }

  lemma VisitKeepsOrder(queue: seq<Queued>, depth: map<Url, nat>, added: seq<Queued>)
    requires DistinctUrls(queue) && Level(queue) && queue != [] && DistinctUrls(added)
    requires forall k :: 0 <= k < |queue| ==> queue[k].url in depth
    requires forall k :: 0 <= k < |added| ==> added[k].depth == queue[0].depth + 1 && added[k].url !in depth
    ensures DistinctUrls(queue[1..] + added) && Level(queue[1..] + added)
  {
    var queue' := queue[1..] + added;
    forall i, j | 0 <= i < j < |queue'|
      ensures queue'[i].url != queue'[j].url && queue'[i].depth <= queue'[j].depth <= queue'[i].depth + 1
    {
      assert queue'[i] == if i < |queue| - 1 then queue[i + 1] else added[i - (|queue| - 1)];
      assert queue'[j] == if j < |queue| - 1 then queue[j + 1] else added[j - (|queue| - 1)];
    }
  }

  // ---------------------------------------------------------------------------
  // Seeding the queue

  ghost predicate FromSitemaps(s: Site, n: nat, u: Url)
    requires n <= |s.sitemaps|
  {
    !IsAsset(s, u) && exists i :: 0 <= i < n && u in s.sitemaps[i]
  }

  /** Seeds are queued at depth zero, once each, and counted as discovered. */
  ghost predicate Seeded(s: Site, queue: seq<Queued>, known: set<Url>, discovered: nat, sitemapPages: set<Url>) {
    && (forall k :: 0 <= k < |queue| ==> queue[k].depth == 0)
    && DistinctUrls(queue) && Urls(queue) == known && |queue| == discovered == |known|
    && known == {s.root} + sitemapPages
  }

  lemma SeedNew(s: Site, queue: seq<Queued>, known: set<Url>, discovered: nat, sitemapPages: set<Url>, u: Url)
    requires Seeded(s, queue, known, discovered, sitemapPages) && u !in known
    ensures Seeded(s, queue + [Queued(u, 0)], known + {u}, discovered + 1, sitemapPages + {u}) == true
  {
    UrlsAppend(queue, Queued(u, 0));
    forall k | 0 <= k < |queue| ensures queue[k].url != u {
      assert queue[k] in queue;
    }
  }

  method AddSitemap(s: Site, urls: seq<Url>, queue0: seq<Queued>, known0: set<Url>, discovered0: nat, pages0: set<Url>)
    returns (queue: seq<Queued>, known: set<Url>, discovered: nat, sitemapPages: set<Url>)
    requires Seeded(s, queue0, known0, discovered0, pages0)
    ensures Seeded(s, queue, known, discovered, sitemapPages)
    ensures forall u :: u in sitemapPages <==> u in pages0 || (u in urls && !IsAsset(s, u))
  {
    queue, known, discovered, sitemapPages := queue0, known0, discovered0, pages0;
    for j := 0 to |urls|
      invariant Seeded(s, queue, known, discovered, sitemapPages)
      invariant forall u :: u in sitemapPages <==> u in pages0 || (u in urls[..j] && !IsAsset(s, u))
    {
      var u := urls[j];
      assert urls[..j + 1] == urls[..j] + [u];
      if !IsAsset(s, u) {
        sitemapPages := sitemapPages + {u};
        if u !in known {
          SeedNew(s, queue, known, discovered, sitemapPages - {u}, u);
          known, discovered, queue := known + {u}, discovered + 1, queue + [Queued(u, 0)];
        }
      }
    }
    assert urls[..|urls|] == urls;
  }

  /** The root first, then every sitemap URL once. */
  method SeedQueue(s: Site) returns (queue: seq<Queued>, known: set<Url>, discovered: nat, sitemapPages: set<Url>)
    ensures Seeded(s, queue, known, discovered, sitemapPages)
    ensures forall u :: u in sitemapPages <==> FromSitemaps(s, |s.sitemaps|, u)
  {
    queue, known, discovered, sitemapPages := [Queued(s.root, 0)], {s.root}, 1, {};
    for i := 0 to |s.sitemaps|
      invariant Seeded(s, queue, known, discovered, sitemapPages)
      invariant forall u :: u in sitemapPages <==> FromSitemaps(s, i, u)
    {
      queue, known, discovered, sitemapPages := AddSitemap(s, s.sitemaps[i], queue, known, discovered, sitemapPages);
    }
  }

  ghost function Zeros(known: set<Url>): map<Url, nat> {
    map u | u in known :: 0
  }

  lemma SeedsKnown(s: Site, known: set<Url>, sitemapPages: set<Url>)
    requires forall u :: u in known <==> u == s.root || u in sitemapPages
    requires forall u :: u in sitemapPages <==> FromSitemaps(s, |s.sitemaps|, u)
    ensures forall u :: u in known <==> Seed(s, u)
  {
    forall u ensures u in known <==> Seed(s, u) {
    }
  }

  lemma SeedsQueued(s: Site, queue: seq<Queued>, known: set<Url>, discovered: nat, sitemapPages: set<Url>)
    requires Seeded(s, queue, known, discovered, sitemapPages)
    ensures Entries(queue, {}, Zeros(known)) == true && DistinctUrls(queue) == true && Level(queue) == true
  {
    forall k | 0 <= k < |queue| ensures queue[k].url in known && queue[k].depth == 0 {
      assert queue[k] in queue;
    }
  }

  lemma SeedsPending(s: Site, queue: seq<Queued>, known: set<Url>, discovered: nat, sitemapPages: set<Url>)
    requires Seeded(s, queue, known, discovered, sitemapPages)
    ensures Pending(queue, {}, Zeros(known)) == true
  {
    forall u | u in known ensures exists k :: 0 <= k < |queue| && queue[k].url == u {
      var q :| q in queue && q.url == u;
    }
  }

  lemma SeedsExact(s: Site, known: set<Url>)
    requires forall u :: u in known <==> Seed(s, u)
    ensures DepthsExact(s, Zeros(known)) == true && Closed(s, {}, Zeros(known)) == true
  {
    forall u | u in known ensures Distance(s, u, 0) {
    }
  }

  lemma SeedsSearching(s: Site, queue: seq<Queued>, known: set<Url>, discovered: nat, sitemapPages: set<Url>)
    requires Seeded(s, queue, known, discovered, sitemapPages)
    requires forall u :: u in sitemapPages <==> FromSitemaps(s, |s.sitemaps|, u)
    ensures Searching(s, queue, {}, Zeros(known)) == true
  {
    SeedsKnown(s, known, sitemapPages);
    SeedsQueued(s, queue, known, discovered, sitemapPages);
    SeedsPending(s, queue, known, discovered, sitemapPages);
    SeedsExact(s, known);
  }

  // ---------------------------------------------------------------------------
  // Visiting one URL

  datatype Visit = Blocked | Resource | Fetched(page: Page)

  function VisitOf(s: Site, q: Queued): Visit {
    var r := s.fetch(q.url);
    if !Allowed(s, q.url) then Blocked
    else if IsResource(s, q.url) then Resource
    else Fetched(Page(q.url, r.status, q.depth, r.failed, Succeeds(r)))
  }

  /** Whether a visit adds the asset to the inventory, if it is not yet there. */
  predicate Inventories(s: Site, q: Queued, u: Url) {
    match VisitOf(s, q)
    case Blocked => false
    case Resource => u == q.url
    case Fetched(page) => page.ok && Mentions(s, q.url, u)
  }

  /** A fetched resource is classed by its content type, a mentioned one by its name. */
  function VisitClass(s: Site, q: Queued, u: Url): string {
    if VisitOf(s, q).Resource? then s.fetch(q.url).mediaClass else ReferenceClass(s, u)
  }

  function VisitLinks(s: Site, q: Queued, kind: Kind): nat {
    if VisitOf(s, q).Fetched? && VisitOf(s, q).page.ok then LinksOfKind(s, Links(s, q.url), kind) else 0
  }

  method VisitUrl(s: Site, q: Queued, known0: set<Url>, assets0: map<Url, string>)
    returns (visit: Visit, added: seq<Queued>, known: set<Url>, assets: map<Url, string>, internalLinks: nat, externalLinks: nat)
    ensures visit == VisitOf(s, q)
    ensures Fresh(s, Links(s, q.url), q.depth, known0, added) && known == known0 + Urls(added)
    ensures forall k :: 0 <= k < |added| ==> Follows(s, q.url, added[k].url)
    ensures q.depth < MaxDepth ==> forall v :: Follows(s, q.url, v) ==> v in known
    ensures !visit.Fetched? ==> added == []
    ensures forall u :: u in assets0 ==> u in assets && assets[u] == assets0[u]
    ensures forall u :: u in assets <==> u in assets0 || Inventories(s, q, u)
    ensures forall u :: u in assets && u !in assets0 ==> assets[u] == VisitClass(s, q, u)
    ensures internalLinks == VisitLinks(s, q, Internal) && externalLinks == VisitLinks(s, q, External)
  {
    added, known, assets, internalLinks, externalLinks := [], known0, assets0, 0, 0;
    if !Allowed(s, q.url) {
      return Blocked, added, known, assets, 0, 0;
    }
    var r := s.fetch(q.url);
    if Succeeds(r) && !r.html {
      if q.url !in assets {
        assets := assets[q.url := r.mediaClass];
      }
      return Resource, added, known, assets, 0, 0;
    }
    visit := Fetched(Page(q.url, r.status, q.depth, r.failed, Succeeds(r)));
    if Succeeds(r) {
      var links := if |r.links| > MaxLinksPerPage then r.links[..MaxLinksPerPage] else r.links;
      added, known, assets, internalLinks, externalLinks := FollowLinks(s, links, q.depth, known0, assets0);
      assets := InventoryResources(s, r.resources, assets);
    }
  }

  // ---------------------------------------------------------------------------
  // The page loop

  function PageUrls(pages: seq<Page>): set<Url> {
    set p | p in pages :: p.url
  }

  predicate IsPage(s: Site, u: Url) {
    Allowed(s, u) && !IsResource(s, u)
  }

  /** Every recorded page is what its fetch returned, and every visited page is recorded once. */
  ghost predicate PagesOk(s: Site, pages: seq<Page>, seen: set<Url>, depth: map<Url, nat>) {
    && (forall i, j :: 0 <= i < j < |pages| ==> pages[i].url != pages[j].url)
    && (forall i :: 0 <= i < |pages| ==>
          && pages[i].url in seen && pages[i].url in depth && IsPage(s, pages[i].url)
          && VisitOf(s, Queued(pages[i].url, depth[pages[i].url])) == Fetched(pages[i]))
    && (forall u :: u in seen && IsPage(s, u) ==> u in PageUrls(pages))
  }

  /** Breadth first: everything nearer than a recorded page was visited before the crawl stopped. */
  ghost predicate NearerVisited(s: Site, pages: seq<Page>, seen: set<Url>) {
    forall i, u :: 0 <= i < |pages| && pages[i].depth > 0 && Within(s, pages[i].depth - 1, u) ==> u in seen
  }

  /** Fetches go to the allowed visited URLs, once each. */
  ghost predicate FetchesOk(s: Site, fetched: seq<Url>, seen: set<Url>) {
    NoDup(fetched) && forall u :: u in fetched <==> u in seen && Allowed(s, u)
  }

  /** Discovered pages are the known URLs minus those that turned out to be resources. */
  ghost predicate Counted(s: Site, pages: seq<Page>, seen: set<Url>, known: set<Url>, discovered: int) {
    && seen <= known
    && PageUrls(pages) <= seen && |PageUrls(pages)| == |pages|
    && discovered == |known| - |ResourcesIn(s, seen)|
  }

  ghost function ResourcesIn(s: Site, seen: set<Url>): set<Url> {
    set u | u in seen && Allowed(s, u) && IsResource(s, u)
  }

  lemma CountKnown(known: set<Url>, added: seq<Queued>)
    requires DistinctUrls(added) && (forall k :: 0 <= k < |added| ==> added[k].url !in known)
    ensures |known + Urls(added)| == |known| + |added|
  {
    UrlsSize(added);
    assert known !! Urls(added);
  }

  lemma CountResources(s: Site, seen: set<Url>, q: Queued)
    requires q.url !in seen
    ensures ResourcesIn(s, seen + {q.url}) == ResourcesIn(s, seen) + (if VisitOf(s, q).Resource? then {q.url} else {})
  {
  }

  /** The counters survive a visit, and the decrement for a resource never meets zero. */
  lemma CountVisit(s: Site, pages: seq<Page>, seen: set<Url>, known: set<Url>, discovered: int, q: Queued, added: seq<Queued>)
    requires Counted(s, pages, seen, known, discovered) && q.url in known && q.url !in seen
    requires DistinctUrls(added) && (forall k :: 0 <= k < |added| ==> added[k].url !in known)
    requires !VisitOf(s, q).Fetched? ==> added == []
    ensures VisitOf(s, q).Resource? ==> discovered > 0
    ensures Counted(s,
                    if VisitOf(s, q).Fetched? then pages + [VisitOf(s, q).page] else pages,
                    seen + {q.url}, known + Urls(added),
                    if VisitOf(s, q).Resource? then discovered - 1 else discovered + |added|) == true
  {
    CountKnown(known, added);
    CountResources(s, seen, q);
    SubsetSize(ResourcesIn(s, seen + {q.url}), known);
    if VisitOf(s, q).Fetched? {
      CountPages(pages, seen, VisitOf(s, q).page);
    }
  }

  lemma CountPages(pages: seq<Page>, seen: set<Url>, page: Page)
    requires PageUrls(pages) <= seen && |PageUrls(pages)| == |pages| && page.url !in seen
    ensures PageUrls(pages + [page]) <= seen + {page.url} && |PageUrls(pages + [page])| == |pages| + 1
  {
    assert PageUrls(pages + [page]) == PageUrls(pages) + {page.url};
  }

  lemma {:induction false} UrlsSize(qs: seq<Queued>)
    requires DistinctUrls(qs)
    ensures |Urls(qs)| == |qs|
  {
    if qs != [] {
      var init, last := qs[..|qs| - 1], qs[|qs| - 1];
      UrlsSize(init);
      assert qs == init + [last];
      UrlsAppend(init, last);
      assert last.url !in Urls(init);
    }
  }

  lemma CrawledAtMostDiscovered(s: Site, pages: seq<Page>, seen: set<Url>, known: set<Url>, discovered: int)
    requires Counted(s, pages, seen, known, discovered)
    requires forall i :: 0 <= i < |pages| ==> IsPage(s, pages[i].url)
    ensures |pages| <= discovered
  {
    var res := ResourcesIn(s, seen);
    assert PageUrls(pages) !! res;
    SubsetSize(PageUrls(pages) + res, known);
  }

  lemma RecordPage(s: Site, pages: seq<Page>, seen: set<Url>, depth: map<Url, nat>, q: Queued, depth': map<Url, nat>)
    requires PagesOk(s, pages, seen, depth) && q.url in depth && q.depth == depth[q.url] && q.url !in seen
    requires forall u :: u in depth ==> u in depth' && depth'[u] == depth[u]
    ensures PagesOk(s, if VisitOf(s, q).Fetched? then pages + [VisitOf(s, q).page] else pages, seen + {q.url}, depth')
  {
    if VisitOf(s, q).Fetched? {
      assert PageUrls(pages + [VisitOf(s, q).page]) == PageUrls(pages) + {q.url};
    }
  }

  lemma NearerKept(s: Site, queue: seq<Queued>, seen: set<Url>, depth: map<Url, nat>, pages: seq<Page>)
    requires Searching(s, queue, seen, depth) && queue != [] && NearerVisited(s, pages, seen)
    ensures NearerVisited(s, if VisitOf(s, queue[0]).Fetched? then pages + [VisitOf(s, queue[0]).page] else pages,
                          seen + {queue[0].url})
  {
    var q := queue[0];
    if q.depth > 0 {
      forall u | Within(s, q.depth - 1, u) ensures u in seen {
        WithinGrows(s, q.depth - 1, q.depth, u);
        HeadCovers(s, queue, seen, depth, u);
        DistanceBound(s, u, depth[u], q.depth - 1);
      }
    }
  }

  /** The variables of the page loop. */
  datatype State = State(
    queue: seq<Queued>, seen: set<Url>, known: set<Url>, pages: seq<Page>, fetched: seq<Url>, discovered: int)

  /** The search part of the loop invariant. */
  ghost predicate Exploring(s: Site, c: State, depth: map<Url, nat>) {
    Searching(s, c.queue, c.seen, depth) && c.known == depth.Keys && NearerVisited(s, c.pages, c.seen)
  }

  /** The bookkeeping part of the loop invariant. */
  ghost predicate Recording(s: Site, c: State, depth: map<Url, nat>) {
    && PagesOk(s, c.pages, c.seen, depth) && FetchesOk(s, c.fetched, c.seen)
    && Counted(s, c.pages, c.seen, c.known, c.discovered)
  }

  /** The state after the head of the queue is visited. */
  ghost function Visited(s: Site, c: State, added: seq<Queued>): State
    requires c.queue != []
  {
    var q := c.queue[0];
    var v := VisitOf(s, q);
    State(c.queue[1..] + added, c.seen + {q.url}, c.known + Urls(added),
          if v.Fetched? then c.pages + [v.page] else c.pages,
          if v.Blocked? then c.fetched else c.fetched + [q.url],
          if v.Resource? then c.discovered - 1 else c.discovered + |added|)
  }

  /** What a visit of the head may queue. */
  ghost predicate GoodVisit(s: Site, q: Queued, known: set<Url>, added: seq<Queued>) {
    && Fresh(s, Links(s, q.url), q.depth, known, added)
    && (forall k :: 0 <= k < |added| ==> Follows(s, q.url, added[k].url))
    && (q.depth < MaxDepth ==> forall v :: Follows(s, q.url, v) ==> v in known || v in Urls(added))
    && (!VisitOf(s, q).Fetched? ==> added == [])
  }

  lemma ExploreStep(s: Site, c: State, depth: map<Url, nat>, added: seq<Queued>)
    requires Exploring(s, c, depth) == true && c.queue != [] && GoodVisit(s, c.queue[0], c.known, added) == true
    ensures Exploring(s, Visited(s, c, added), Deepen(depth, added, c.queue[0].depth)) == true
  {
    VisitKeeps(s, c.queue, c.seen, depth, added);
    NearerKept(s, c.queue, c.seen, depth, c.pages);
  }

  lemma RecordStep(s: Site, c: State, depth: map<Url, nat>, added: seq<Queued>)
    requires Recording(s, c, depth) == true && c.queue != [] && GoodVisit(s, c.queue[0], c.known, added) == true
    requires c.known == depth.Keys && Entries(c.queue, c.seen, depth) == true
    ensures Recording(s, Visited(s, c, added), Deepen(depth, added, c.queue[0].depth))
    ensures VisitOf(s, c.queue[0]).Resource? ==> c.discovered > 0
  {
    var q := c.queue[0];
    RecordPage(s, c.pages, c.seen, depth, q, Deepen(depth, added, q.depth));
    CountVisit(s, c.pages, c.seen, c.known, c.discovered, q, added);
    FetchesKept(s, c.fetched, c.seen, q);
  }

  lemma FetchesKept(s: Site, fetched: seq<Url>, seen: set<Url>, q: Queued)
    requires FetchesOk(s, fetched, seen) && q.url !in seen
    ensures FetchesOk(s, if VisitOf(s, q).Blocked? then fetched else fetched + [q.url], seen + {q.url})
  {
  }

  /** What the loop's invariant says about the final report. */
  ghost predicate Exact(s: Site, pages: seq<Page>, visited: set<Url>, complete: bool) {
    && (forall i :: 0 <= i < |pages| ==> pages[i].depth <= MaxDepth && Distance(s, pages[i].url, pages[i].depth))
    && (forall i :: 0 <= i < |pages| ==> Fetched(pages[i]) == VisitOf(s, Queued(pages[i].url, pages[i].depth)))
    && (forall i, j :: 0 <= i < j < |pages| ==> pages[i].url != pages[j].url)
    && (forall u :: u in PageUrls(pages) <==> u in visited && IsPage(s, u))
    && (forall u :: u in visited ==> Within(s, MaxDepth, u))
    && (complete ==> forall u :: Within(s, MaxDepth, u) ==> u in visited)
  }

  lemma CrawlingExact(s: Site, c: State, depth: map<Url, nat>)
    requires Exploring(s, c, depth) && Recording(s, c, depth)
    ensures Exact(s, c.pages, c.seen, c.queue == []) == true
    ensures |c.pages| <= c.discovered
    ensures c.queue == [] ==> c.discovered == |c.seen| - |ResourcesIn(s, c.seen)|
    ensures c.seen <= c.known && (c.queue == [] ==> c.seen == c.known)
  {
    CrawledAtMostDiscovered(s, c.pages, c.seen, c.known, c.discovered);
    forall u | u in c.seen ensures Within(s, MaxDepth, u) {
      WithinGrows(s, depth[u], MaxDepth, u);
    }
    if c.queue == [] {
      forall u | Within(s, MaxDepth, u) ensures u in c.seen {
        DrainedExact(s, c.seen, depth, u);
      }
      assert c.seen == c.known;
    }
  }

  lemma SeedsCrawling(s: Site, queue: seq<Queued>, known: set<Url>, discovered: nat, sitemapPages: set<Url>)
    requires Seeded(s, queue, known, discovered, sitemapPages)
    requires forall u :: u in sitemapPages <==> FromSitemaps(s, |s.sitemaps|, u)
    ensures Exploring(s, State(queue, {}, known, [], [], discovered), Zeros(known))
    ensures Recording(s, State(queue, {}, known, [], [], discovered), Zeros(known))
  {
    SeedsSearching(s, queue, known, discovered, sitemapPages);
    assert ResourcesIn(s, {}) == {};
    assert PageUrls([]) == {};
  }

  /** What a visit does to the inventory. */
  ghost predicate VisitAssets(s: Site, q: Queued, assets0: map<Url, string>, assets: map<Url, string>) {
    && (forall u :: u in assets <==> u in assets0 || Inventories(s, q, u))
    && (forall u :: u in assets ==> assets[u] == if u in assets0 then assets0[u] else VisitClass(s, q, u))
  }

  /** A visited resource, or an asset that a successful page names. */
  ghost predicate Inventory(s: Site, pages: seq<Page>, seen: set<Url>, u: Url) {
    u in ResourcesIn(s, seen) || exists i :: 0 <= i < |pages| && pages[i].ok && Mentions(s, pages[i].url, u)
  }

  ghost predicate InventoryOk(s: Site, pages: seq<Page>, seen: set<Url>, assets: map<Url, string>) {
    && (forall u :: u in assets <==> Inventory(s, pages, seen, u))
    && (forall u :: u in assets ==> assets[u] == ReferenceClass(s, u) || (IsResource(s, u) && assets[u] == s.fetch(u).mediaClass))
  }

  lemma InventoryStep(s: Site, c: State, added: seq<Queued>, assets0: map<Url, string>, assets: map<Url, string>)
    requires c.queue != [] && InventoryOk(s, c.pages, c.seen, assets0) == true && VisitAssets(s, c.queue[0], assets0, assets) == true
    ensures InventoryOk(s, Visited(s, c, added).pages, Visited(s, c, added).seen, assets) == true
  {
    var q := c.queue[0];
    var pages, seen := Visited(s, c, added).pages, Visited(s, c, added).seen;
    forall u ensures Inventory(s, pages, seen, u) <==> Inventory(s, c.pages, c.seen, u) || Inventories(s, q, u) {
      if VisitOf(s, q).Fetched? {
        assert pages[..|c.pages|] == c.pages && pages[|c.pages|] == VisitOf(s, q).page;
        assert forall i :: 0 <= i < |c.pages| ==> pages[i] == c.pages[i];
      }
    }
  }

  /** The class under which the first of the fetched URLs to do so inventories an asset. */
  function FirstClass(s: Site, fetched: seq<Url>, u: Url): Option<string> {
    if fetched == [] then None
    else
      var before := FirstClass(s, fetched[..|fetched| - 1], u);
      var q := Queued(fetched[|fetched| - 1], 0);
      if before.Some? then before else if Inventories(s, q, u) then Some(VisitClass(s, q, u)) else None
  }

  /** Every asset has the class of the first visit that inventoried it. */
  ghost predicate Classified(s: Site, fetched: seq<Url>, assets: map<Url, string>) {
    forall u :: FirstClass(s, fetched, u) == if u in assets then Some(assets[u]) else None
  }

  lemma SameVisit(s: Site, q: Queued, u: Url)
    ensures Inventories(s, q, u) == Inventories(s, Queued(q.url, 0), u)
    ensures VisitClass(s, q, u) == VisitClass(s, Queued(q.url, 0), u)
  {
  }

  lemma FirstClassNext(s: Site, fetched: seq<Url>, q: Queued, u: Url)
    ensures FirstClass(s, fetched + [q.url], u) ==
            if FirstClass(s, fetched, u).Some? then FirstClass(s, fetched, u)
            else if Inventories(s, q, u) then Some(VisitClass(s, q, u)) else None
  {
    assert (fetched + [q.url])[..|fetched|] == fetched;
    SameVisit(s, q, u);
  }

  lemma ClassStep(s: Site, c: State, added: seq<Queued>, assets0: map<Url, string>, assets: map<Url, string>, fetched: seq<Url>)
    requires c.queue != [] && Classified(s, c.fetched, assets0) == true && VisitAssets(s, c.queue[0], assets0, assets) == true
    requires fetched == Visited(s, c, added).fetched
    ensures Classified(s, fetched, assets) == true
  {
    var q := c.queue[0];
    forall u ensures FirstClass(s, fetched, u) == if u in assets then Some(assets[u]) else None {
      if VisitOf(s, q).Blocked? {
        assert fetched == c.fetched && !Inventories(s, q, u);
      } else {
        assert fetched == c.fetched + [q.url];
        FirstClassNext(s, c.fetched, q, u);
      }
    }
  }

  /** The links of one kind on the successful pages. */
  function TotalLinks(s: Site, pages: seq<Page>, kind: Kind): nat {
    if pages == [] then 0
    else
      var p := pages[|pages| - 1];
      TotalLinks(s, pages[..|pages| - 1], kind) + if p.ok then LinksOfKind(s, Links(s, p.url), kind) else 0
  }

  lemma TotalLinksStep(s: Site, c: State, added: seq<Queued>, kind: Kind)
    requires c.queue != []
    ensures TotalLinks(s, Visited(s, c, added).pages, kind) == TotalLinks(s, c.pages, kind) + VisitLinks(s, c.queue[0], kind)
  {
    var pages := Visited(s, c, added).pages;
    if VisitOf(s, c.queue[0]).Fetched? {
      assert pages[..|pages| - 1] == c.pages;
    }
  }

  /** A seed, or the target of a link followed from a recorded page above the depth limit. */
  ghost predicate Discoverable(s: Site, pages: seq<Page>, u: Url) {
    Seed(s, u) || exists i :: 0 <= i < |pages| && pages[i].depth < MaxDepth && Follows(s, pages[i].url, u)
  }

  ghost predicate KnownOk(s: Site, pages: seq<Page>, known: set<Url>) {
    forall u :: u in known <==> Discoverable(s, pages, u)
  }

  lemma KnownStep(s: Site, c: State, added: seq<Queued>)
    requires c.queue != [] && KnownOk(s, c.pages, c.known) == true && GoodVisit(s, c.queue[0], c.known, added) == true
    ensures KnownOk(s, Visited(s, c, added).pages, Visited(s, c, added).known) == true
  {
    var q := c.queue[0];
    var pages := Visited(s, c, added).pages;
    forall u ensures u in c.known + Urls(added) <==> Discoverable(s, pages, u) {
      if VisitOf(s, q).Fetched? {
        assert forall i :: 0 <= i < |c.pages| ==> pages[i] == c.pages[i];
        assert pages[|c.pages|] == VisitOf(s, q).page;
        assert Discoverable(s, pages, u) <==> Discoverable(s, c.pages, u) || (q.depth < MaxDepth && Follows(s, q.url, u));
        assert u in Urls(added) ==> q.depth < MaxDepth && Follows(s, q.url, u);
      } else {
        assert Urls(added) == {};
      }
    }
  }

  function FailedPages(pages: seq<Page>): nat {
    if pages == [] then 0 else FailedPages(pages[..|pages| - 1]) + if pages[|pages| - 1].ok then 0 else 1
  }

  method CountFailed(pages: seq<Page>) returns (failed: nat)
    ensures failed == FailedPages(pages)
  {
    failed := 0;
    for i := 0 to |pages|
      invariant failed == FailedPages(pages[..i])
    {
      assert pages[..i + 1][..i] == pages[..i];
      if !pages[i].ok {
        failed := failed + 1;
      }
    }
    assert pages[..|pages|] == pages;
  }

  datatype Totals = Totals(internalLinks: nat, externalLinks: nat)

  function TotalsOf(s: Site, pages: seq<Page>): Totals {
    Totals(TotalLinks(s, pages, Internal), TotalLinks(s, pages, External))
  }

  /** The whole loop invariant. */
  ghost predicate Crawling(s: Site, c: State, depth: map<Url, nat>, assets: map<Url, string>, totals: Totals) {
    && Exploring(s, c, depth) && Recording(s, c, depth)
    && InventoryOk(s, c.pages, c.seen, assets) && totals == TotalsOf(s, c.pages) && KnownOk(s, c.pages, c.known)
    && Classified(s, c.fetched, assets)
  }

  /** What a turn of the loop does: a stale or too deep head is only dropped, any other one visited. */
  ghost predicate Turned(s: Site, c: State, assets0: map<Url, string>, c': State, assets: map<Url, string>, links: Totals, added: seq<Queued>)
    requires c.queue != []
  {
    var q := c.queue[0];
    if q.url in c.seen || q.depth > MaxDepth then c' == c.(queue := c.queue[1..]) && assets == assets0 && links == Totals(0, 0)
    else
      && GoodVisit(s, q, c.known, added)
      && (c.discovered > 0 || !VisitOf(s, q).Resource? ==> c' == Visited(s, c, added))
      && links == Totals(VisitLinks(s, q, Internal), VisitLinks(s, q, External))
      && VisitAssets(s, q, assets0, assets)
  }

  /** The head is never stale or too deep, so every turn visits; the counter of discovered pages never runs out. */
  lemma TurnVisits(s: Site, c: State, depth: map<Url, nat>, assets0: map<Url, string>, c': State, assets: map<Url, string>,
                   links: Totals, added: seq<Queued>)
    requires Exploring(s, c, depth) == true && Recording(s, c, depth) == true && c.queue != []
    requires Turned(s, c, assets0, c', assets, links, added) == true
    ensures GoodVisit(s, c.queue[0], c.known, added) == true && c' == Visited(s, c, added)
    ensures VisitAssets(s, c.queue[0], assets0, assets) == true
    ensures links == Totals(VisitLinks(s, c.queue[0], Internal), VisitLinks(s, c.queue[0], External))
  {
    var q := c.queue[0];
    assert q.url !in c.seen && q.depth <= MaxDepth;
    RecordStep(s, c, depth, added);
  }

  lemma VisitedKeeps(s: Site, c: State, depth: map<Url, nat>, added: seq<Queued>, c': State, depth': map<Url, nat>)
    requires Exploring(s, c, depth) == true && Recording(s, c, depth) == true && c.queue != []
    requires GoodVisit(s, c.queue[0], c.known, added) == true && c' == Visited(s, c, added)
    requires depth' == Deepen(depth, added, c.queue[0].depth)
    ensures Exploring(s, c', depth') == true
    ensures Recording(s, c', depth') == true
  {
    ExploreStep(s, c, depth, added);
    RecordStep(s, c, depth, added);
  }

  lemma VisitedTotals(s: Site, c: State, added: seq<Queued>, pages: seq<Page>, totals: Totals, links: Totals)
    requires c.queue != [] && pages == Visited(s, c, added).pages && totals == TotalsOf(s, c.pages)
    requires links == Totals(VisitLinks(s, c.queue[0], Internal), VisitLinks(s, c.queue[0], External))
    ensures TotalsOf(s, pages) == Totals(totals.internalLinks + links.internalLinks, totals.externalLinks + links.externalLinks)
  {
    TotalLinksStep(s, c, added, Internal);
    TotalLinksStep(s, c, added, External);
  }

  lemma TurnKeeps(s: Site, c: State, depth: map<Url, nat>, assets0: map<Url, string>, totals: Totals,
                  c': State, assets: map<Url, string>, links: Totals, added: seq<Queued>, depth': map<Url, nat>)
    requires Crawling(s, c, depth, assets0, totals) == true && c.queue != []
    requires Turned(s, c, assets0, c', assets, links, added) == true && depth' == Deepen(depth, added, c.queue[0].depth)
    ensures Crawling(s, c', depth', assets,
                     Totals(totals.internalLinks + links.internalLinks, totals.externalLinks + links.externalLinks)) == true
    ensures |c'.pages| == |c.pages| + 1 || (c'.pages == c.pages && |c'.queue| < |c.queue|)
  {
    TurnVisits(s, c, depth, assets0, c', assets, links, added);
    VisitedKeeps(s, c, depth, added, c', depth');
    InventoryStep(s, c, added, assets0, assets);
    ClassStep(s, c, added, assets0, assets, c'.fetched);
    KnownStep(s, c, added);
    VisitedTotals(s, c, added, c'.pages, totals, links);
    TurnProgress(s, c, added, c');
  }

  /** A turn records a page or shortens the queue. */
  lemma TurnProgress(s: Site, c: State, added: seq<Queued>, c': State)
    requires c.queue != [] && GoodVisit(s, c.queue[0], c.known, added) && c' == Visited(s, c, added)
    ensures |c'.pages| == |c.pages| + 1 || (c'.pages == c.pages && |c'.queue| < |c.queue|)
  {
  }

  lemma SeedsKeep(s: Site, queue: seq<Queued>, known: set<Url>, discovered: nat, sitemapPages: set<Url>)
    requires Seeded(s, queue, known, discovered, sitemapPages)
    requires forall u :: u in sitemapPages <==> FromSitemaps(s, |s.sitemaps|, u)
    ensures Crawling(s, State(queue, {}, known, [], [], discovered), Zeros(known), map[], Totals(0, 0)) == true
  {
    SeedsCrawling(s, queue, known, discovered, sitemapPages);
    SeedsKnown(s, known, sitemapPages);
    assert ResourcesIn(s, {}) == {};
  }

  /** One turn of the page loop: take the head of the queue and visit it, unless it is stale or too deep. */
  method VisitHead(s: Site, c: State, assets0: map<Url, string>)
    returns (c': State, assets: map<Url, string>, links: Totals, added: seq<Queued>)
    requires c.queue != []
    ensures Turned(s, c, assets0, c', assets, links, added) == true
  {
    var q := c.queue[0];
    if q.url in c.seen || q.depth > MaxDepth {
      return c.(queue := c.queue[1..]), assets0, Totals(0, 0), [];
    }
    var visit, known, internalLinks, externalLinks;
    visit, added, known, assets, internalLinks, externalLinks := VisitUrl(s, q, c.known, assets0);
    links := Totals(internalLinks, externalLinks);
    c' := c.(queue := c.queue[1..] + added, seen := c.seen + {q.url}, known := known);
    match visit {
      case Blocked =>
      case Resource =>
        c' := c'.(fetched := c.fetched + [q.url], discovered := if c.discovered > 0 then c.discovered - 1 else c.discovered);
      case Fetched(page) =>
        c' := c'.(fetched := c.fetched + [q.url], pages := c.pages + [page], discovered := c.discovered + |added|);
    }
  }

  /** What the report of a finished crawl says. */
  ghost predicate Faithful(s: Site, r: Report) {
    && Exact(s, r.pages, r.visited, !r.limitReached)
    && (r.limitReached <==> exists u :: Within(s, MaxDepth, u) && u !in r.visited)
    && NearerVisited(s, r.pages, r.visited)
    && FetchesOk(s, r.fetched, r.visited)
    && KnownOk(s, r.pages, r.known)
    && r.visited <= r.known && (r.limitReached <==> r.visited != r.known)
    && r.discovered == |r.known| - |ResourcesIn(s, r.visited)|
    && |r.pages| <= r.discovered && r.failed == FailedPages(r.pages)
    && InventoryOk(s, r.pages, r.visited, r.assets) && Classified(s, r.fetched, r.assets)
    && Totals(r.internalLinks, r.externalLinks) == TotalsOf(s, r.pages)
    && Tallied(r.assets, r.assets.Keys, r.classes)
  }

  // ---------------------------------------------------------------------------
  // What a faithful report says of the robots rules, the responses and the links

  /** A fetch never goes to a path a rule covers, and a visited URL is skipped only for a rule. */
  lemma RulesObeyed(s: Site, r: Report)
    requires Faithful(s, r) == true
    ensures forall u, rule :: u in r.fetched && rule in s.rules ==> rule != "/" && !(rule <= s.path(u))
    ensures forall u :: u in r.visited && u !in r.fetched ==> exists rule :: rule in s.rules && (rule == "/" || rule <= s.path(u))
  {
  }

  /** The pages are the fetched URLs, except for what came back in order but is not HTML. */
  lemma PagesFetched(s: Site, r: Report)
    requires Faithful(s, r) == true
    ensures forall u :: (exists i :: 0 <= i < |r.pages| && r.pages[i].url == u) <==>
              u in r.fetched && (s.fetch(u).failed || s.fetch(u).status >= 400 || s.fetch(u).html)
  {
    forall u ensures (exists i :: 0 <= i < |r.pages| && r.pages[i].url == u) <==> u in PageUrls(r.pages) {
      if u in PageUrls(r.pages) {
        var p :| p in r.pages && p.url == u;
      }
    }
  }

  lemma PagesRecorded(s: Site, r: Report)
    requires Faithful(s, r) == true
    ensures forall i :: 0 <= i < |r.pages| ==> r.pages[i].depth <= 8 && r.pages[i].status == s.fetch(r.pages[i].url).status
    ensures forall i :: 0 <= i < |r.pages| ==> r.pages[i].error == s.fetch(r.pages[i].url).failed
    ensures forall i :: 0 <= i < |r.pages| ==> (r.pages[i].ok <==> !s.fetch(r.pages[i].url).failed && s.fetch(r.pages[i].url).status < 400)
  {
    forall i | 0 <= i < |r.pages| ensures Fetched(r.pages[i]) == VisitOf(s, Queued(r.pages[i].url, r.pages[i].depth)) {
    }
  }

  lemma FirstLinks(s: Site, u: Url, v: Url)
    ensures v in Links(s, u) <==> exists k :: 0 <= k < |s.fetch(u).links| && k < 1000 && s.fetch(u).links[k] == v
  {
    if v in Links(s, u) {
      var k :| 0 <= k < |Links(s, u)| && Links(s, u)[k] == v;
      assert s.fetch(u).links[k] == v;
    }
    if k :| 0 <= k < |s.fetch(u).links| && k < 1000 && s.fetch(u).links[k] == v {
      assert Links(s, u)[k] == v;
    }
  }

  /** From a recorded page the crawl may go to the internal non-assets among its first thousand links, if it answered. */
  lemma PageFollows(s: Site, r: Report, i: nat, v: Url)
    requires Faithful(s, r) == true && i < |r.pages|
    ensures Follows(s, r.pages[i].url, v) <==>
            r.pages[i].ok && s.kind(v) == Internal && s.assetClass(v) == ""
            && exists k :: 0 <= k < |s.fetch(r.pages[i].url).links| && k < 1000 && s.fetch(r.pages[i].url).links[k] == v
  {
    assert r.pages[i] in r.pages;
    assert Fetched(r.pages[i]) == VisitOf(s, Queued(r.pages[i].url, r.pages[i].depth));
    FirstLinks(s, r.pages[i].url, v);
  }

  /** The known URLs: the root, the sitemaps' pages, and what the pages above the depth limit link to. */
  lemma KnownMeans(s: Site, r: Report)
    requires Faithful(s, r) == true
    ensures forall v :: v in r.known <==>
              || v == s.root || (s.assetClass(v) == "" && exists i :: 0 <= i < |s.sitemaps| && v in s.sitemaps[i])
              || (s.kind(v) == Internal && s.assetClass(v) == "" && exists i, k :: (
                    && 0 <= i < |r.pages| && r.pages[i].ok && r.pages[i].depth < 8
                    && 0 <= k < |s.fetch(r.pages[i].url).links| && k < 1000 && s.fetch(r.pages[i].url).links[k] == v))
  {
    forall v, i: nat | i < |r.pages|
      ensures Follows(s, r.pages[i].url, v) <==>
            r.pages[i].ok && s.kind(v) == Internal && s.assetClass(v) == ""
            && exists k :: 0 <= k < |s.fetch(r.pages[i].url).links| && k < 1000 && s.fetch(r.pages[i].url).links[k] == v
    {
      PageFollows(s, r, i, v);
    }
    forall v ensures v in r.known <==> Discoverable(s, r.pages, v) {
    }
  }

  /** Depth zero is for the root and the sitemaps' pages. */
  lemma RootDepths(s: Site, r: Report)
    requires Faithful(s, r) == true
    ensures forall i :: 0 <= i < |r.pages| ==> (r.pages[i].depth == 0 <==>
              || r.pages[i].url == s.root
              || (s.assetClass(r.pages[i].url) == "" && exists j :: 0 <= j < |s.sitemaps| && r.pages[i].url in s.sitemaps[j]))
  {
    forall i | 0 <= i < |r.pages| ensures r.pages[i].depth == 0 <==> Seed(s, r.pages[i].url) {
      assert Distance(s, r.pages[i].url, r.pages[i].depth);
      assert Within(s, 0, r.pages[i].url) <==> Seed(s, r.pages[i].url);
    }
  }

  lemma PageOf(s: Site, r: Report, u: Url) returns (j: nat)
    requires Exact(s, r.pages, r.visited, !r.limitReached) && u in r.visited && IsPage(s, u)
    ensures j < |r.pages| && r.pages[j].url == u && Distance(s, u, r.pages[j].depth)
  {
    assert u in PageUrls(r.pages);
    var p :| p in r.pages && p.url == u;
    j :| 0 <= j < |r.pages| && r.pages[j] == p;
  }

  lemma Predecessor(s: Site, u: Url, d: nat) returns (x: Url)
    requires Distance(s, u, d) && d > 0
    ensures Within(s, d - 1, x) && Follows(s, x, u)
  {
    assert !Within(s, d - 1, u);
    x :| Within(s, d - 1, x) && Follows(s, x, u);
  }

  lemma Nearest(s: Site, x: Url, m: nat, u: Url, d: nat)
    requires Distance(s, u, d) && d > 0 && Within(s, d - 1, x) && Follows(s, x, u) && Distance(s, x, m)
    ensures m == d - 1
  {
    DistanceBound(s, x, m, d - 1);
    assert Within(s, m + 1, u);
  }

  /** A deeper page is linked from a recorded page one level up. */
  lemma ParentRecorded(s: Site, r: Report, i: nat) returns (j: nat)
    requires Exact(s, r.pages, r.visited, !r.limitReached) == true && NearerVisited(s, r.pages, r.visited) == true
    requires i < |r.pages| && r.pages[i].depth > 0
    ensures j < |r.pages| && r.pages[j].depth == r.pages[i].depth - 1 && Follows(s, r.pages[j].url, r.pages[i].url)
  {
    var u, d := r.pages[i].url, r.pages[i].depth;
    assert Distance(s, u, d);
    var x := Predecessor(s, u, d);
    assert x in r.visited && IsPage(s, x);
    j := PageOf(s, r, x);
    Nearest(s, x, r.pages[j].depth, u, d);
  }

  lemma LinkedDepths(s: Site, r: Report, i: nat, j: nat)
    requires Faithful(s, r) == true && i < |r.pages| && j < |r.pages| && Follows(s, r.pages[j].url, r.pages[i].url)
    ensures r.pages[i].depth <= r.pages[j].depth + 1
  {
    assert Distance(s, r.pages[i].url, r.pages[i].depth) && Distance(s, r.pages[j].url, r.pages[j].depth);
    assert Within(s, r.pages[j].depth + 1, r.pages[i].url);
  }

  /** A page that another one links to is at most one deeper; a page that is not a seed is linked from one level up. */
  lemma DepthsMean(s: Site, r: Report)
    requires Faithful(s, r) == true
    ensures forall i, j, k :: 0 <= i < |r.pages| && 0 <= j < |r.pages| && r.pages[j].ok
              && 0 <= k < |s.fetch(r.pages[j].url).links| && k < 1000 && s.fetch(r.pages[j].url).links[k] == r.pages[i].url
              && s.kind(r.pages[i].url) == Internal && s.assetClass(r.pages[i].url) == ""
              ==> r.pages[i].depth <= r.pages[j].depth + 1
    ensures forall i :: 0 <= i < |r.pages| && r.pages[i].depth > 0 ==> exists j, k :: (
              && 0 <= j < |r.pages| && r.pages[j].ok && r.pages[j].depth == r.pages[i].depth - 1
              && 0 <= k < |s.fetch(r.pages[j].url).links| && k < 1000 && s.fetch(r.pages[j].url).links[k] == r.pages[i].url)
  {
    forall i, j, k | 0 <= i < |r.pages| && 0 <= j < |r.pages| && r.pages[j].ok
              && 0 <= k < |s.fetch(r.pages[j].url).links| && k < 1000 && s.fetch(r.pages[j].url).links[k] == r.pages[i].url
              && s.kind(r.pages[i].url) == Internal && s.assetClass(r.pages[i].url) == ""
      ensures r.pages[i].depth <= r.pages[j].depth + 1
    {
      PageFollows(s, r, j, r.pages[i].url);
      LinkedDepths(s, r, i, j);
    }
    forall i | 0 <= i < |r.pages| && r.pages[i].depth > 0
      ensures exists j, k :: (
              && 0 <= j < |r.pages| && r.pages[j].ok && r.pages[j].depth == r.pages[i].depth - 1
              && 0 <= k < |s.fetch(r.pages[j].url).links| && k < 1000 && s.fetch(r.pages[j].url).links[k] == r.pages[i].url)
    {
      var j := ParentRecorded(s, r, i);
      PageFollows(s, r, j, r.pages[i].url);
    }
  }

  lemma CountsMean(s: Site, r: Report)
    requires Faithful(s, r) == true
    ensures r.discovered == |r.known| - |set u | u in r.fetched && !s.fetch(u).failed && s.fetch(u).status < 400 && !s.fetch(u).html|
    ensures r.failed == |set i: nat | i < |r.pages| && !r.pages[i].ok|
  {
    assert ResourcesIn(s, r.visited) == set u | u in r.fetched && !s.fetch(u).failed && s.fetch(u).status < 400 && !s.fetch(u).html;
    FailedCount(r.pages);
    assert FailedAt(r.pages) == set i: nat | i < |r.pages| && !r.pages[i].ok;
  }

  ghost function FailedAt(pages: seq<Page>): set<nat> {
    set i: nat | i < |pages| && !pages[i].ok
  }

  lemma FailedAtLast(pages: seq<Page>, m: nat)
    requires |pages| == m + 1
    ensures m !in FailedAt(pages[..m]) && FailedAt(pages) == FailedAt(pages[..m]) + (if pages[m].ok then {} else {m})
  {
  }

  lemma {:induction false} FailedCount(pages: seq<Page>)
    ensures FailedPages(pages) == |FailedAt(pages)|
  {
    if pages != [] {
      FailedCount(pages[..|pages| - 1]);
      FailedAtLast(pages, |pages| - 1);
    }
  }

  /** The inventory: what came back in order but is not HTML, and what the successful pages name. */
  lemma InventoryMeans(s: Site, r: Report)
    requires Faithful(s, r) == true
    ensures forall v :: v in r.assets <==>
              || (v in r.fetched && !s.fetch(v).failed && s.fetch(v).status < 400 && !s.fetch(v).html)
              || (s.kind(v) == Internal && exists i :: 0 <= i < |r.pages| && r.pages[i].ok && v in s.fetch(r.pages[i].url).resources)
              || (s.kind(v) == Internal && s.assetClass(v) != "" && exists i, k :: (
                    && 0 <= i < |r.pages| && r.pages[i].ok
                    && 0 <= k < |s.fetch(r.pages[i].url).links| && k < 1000 && s.fetch(r.pages[i].url).links[k] == v))
  {
    forall v, i: nat | i < |r.pages|
      ensures v in Links(s, r.pages[i].url) <==>
              exists k :: 0 <= k < |s.fetch(r.pages[i].url).links| && k < 1000 && s.fetch(r.pages[i].url).links[k] == v
    {
      FirstLinks(s, r.pages[i].url, v);
    }
    forall v ensures v in r.assets <==> Inventory(s, r.pages, r.visited, v) {
    }
  }

  /** What a visit to `u` adds to the inventory: itself, or what the page names. */
  lemma InventoriesMeans(s: Site, q: Queued, u: Url)
    ensures Inventories(s, q, u) <==>
              && (forall rule :: rule in s.rules ==> rule != "/" && !(rule <= s.path(q.url)))
              && !s.fetch(q.url).failed && s.fetch(q.url).status < 400
              && if !s.fetch(q.url).html then u == q.url
                 else s.kind(u) == Internal
                      && (u in s.fetch(q.url).resources
                          || (s.assetClass(u) != ""
                              && exists k :: 0 <= k < |s.fetch(q.url).links| && k < 1000 && s.fetch(q.url).links[k] == u))
  {
    FirstLinks(s, q.url, u);
  }

  lemma {:induction false} FirstClassAt(s: Site, fetched: seq<Url>, u: Url) returns (k: nat)
    requires FirstClass(s, fetched, u).Some?
    ensures k < |fetched| && Inventories(s, Queued(fetched[k], 0), u)
    ensures FirstClass(s, fetched, u) == Some(VisitClass(s, Queued(fetched[k], 0), u))
    ensures forall j :: 0 <= j < k ==> !Inventories(s, Queued(fetched[j], 0), u)
  {
    var n := |fetched| - 1;
    if FirstClass(s, fetched[..n], u).Some? {
      k := FirstClassAt(s, fetched[..n], u);
    } else {
      k := n;
      NoClassBefore(s, fetched[..n], u);
    }
  }

  lemma {:induction false} NoClassBefore(s: Site, fetched: seq<Url>, u: Url)
    requires FirstClass(s, fetched, u).None?
    ensures forall j :: 0 <= j < |fetched| ==> !Inventories(s, Queued(fetched[j], 0), u)
  {
    if fetched != [] {
      NoClassBefore(s, fetched[..|fetched| - 1], u);
    }
  }

  /**
   An asset has the class of the first fetch that inventoried it: by its content type if that fetched
   the asset itself, by its name if a page named it.
   */
  lemma AssetClassed(s: Site, r: Report, u: Url) returns (k: nat)
    requires Faithful(s, r) == true && u in r.assets
    ensures k < |r.fetched| && Inventories(s, Queued(r.fetched[k], 0), u)
    ensures forall j :: 0 <= j < k ==> !Inventories(s, Queued(r.fetched[j], 0), u)
    ensures r.assets[u] == if !s.fetch(r.fetched[k]).html then s.fetch(r.fetched[k]).mediaClass
                           else if s.assetClass(u) == "" then "other" else s.assetClass(u)
  {
    assert FirstClass(s, r.fetched, u) == Some(r.assets[u]);
    k := FirstClassAt(s, r.fetched, u);
  }

  ghost function KindAt(s: Site, links: seq<Url>, kind: Kind): set<nat> {
    set k: nat | k < |links| && s.kind(links[k]) == kind
  }

  lemma KindAtLast(s: Site, links: seq<Url>, kind: Kind, m: nat)
    requires |links| == m + 1
    ensures m !in KindAt(s, links[..m], kind)
    ensures KindAt(s, links, kind) == KindAt(s, links[..m], kind) + (if s.kind(links[m]) == kind then {m} else {})
  {
  }

  lemma {:induction false} KindCount(s: Site, links: seq<Url>, kind: Kind)
    ensures LinksOfKind(s, links, kind) == |KindAt(s, links, kind)|
  {
    if links != [] {
      KindCount(s, links[..|links| - 1], kind);
      KindAtLast(s, links, kind, |links| - 1);
    }
  }

  /** The place of a link: its page and its position on that page. */
  datatype Place = Place(page: nat, link: nat)

  ghost function LinkPlaces(s: Site, pages: seq<Page>, kind: Kind): set<Place> {
    set i: nat, k: nat | i < |pages| && pages[i].ok && k < |s.fetch(pages[i].url).links| && k < 1000
                         && s.kind(s.fetch(pages[i].url).links[k]) == kind :: Place(i, k)
  }

  lemma {:induction false} PlaceCount(m: nat, ks: set<nat>)
    ensures |set k | k in ks :: Place(m, k)| == |ks|
    decreases ks
  {
    if ks != {} {
      var x := Pick(ks);
      PlaceCount(m, ks - {x});
      assert (set k | k in ks :: Place(m, k)) == (set k | k in ks - {x} :: Place(m, k)) + {Place(m, x)};
    }
  }

  lemma LastPlaces(s: Site, pages: seq<Page>, kind: Kind, links: seq<Url>, before: set<Place>, now: set<Place>)
    requires pages != [] && links == Links(s, pages[|pages| - 1].url)
    requires before == LinkPlaces(s, pages[..|pages| - 1], kind)
    requires now == set k: nat | k < |links| && s.kind(links[k]) == kind :: Place(|pages| - 1, k)
    ensures before !! now
    ensures LinkPlaces(s, pages, kind) == if pages[|pages| - 1].ok then before + now else before
  {
    var m := |pages| - 1;
    assert forall i :: 0 <= i < m ==> pages[..m][i] == pages[i];
    assert forall k :: 0 <= k < |links| ==> links[k] == s.fetch(pages[m].url).links[k];
  }

  lemma KindPlaces(s: Site, links: seq<Url>, kind: Kind, m: nat) returns (now: set<Place>)
    ensures now == set k: nat | k < |links| && s.kind(links[k]) == kind :: Place(m, k)
    ensures |now| == LinksOfKind(s, links, kind)
  {
    var ks := KindAt(s, links, kind);
    KindCount(s, links, kind);
    PlaceCount(m, ks);
    now := set k | k in ks :: Place(m, k);
  }

  /** The links of one kind are counted place by place: the first thousand of every successful page. */
  lemma {:induction false} LinksCounted(s: Site, pages: seq<Page>, kind: Kind)
    ensures TotalLinks(s, pages, kind) == |LinkPlaces(s, pages, kind)|
  {
    if pages == [] {
      assert LinkPlaces(s, pages, kind) == {};
    } else {
      var m := |pages| - 1;
      LinksCounted(s, pages[..m], kind);
      var now := KindPlaces(s, Links(s, pages[m].url), kind, m);
      LastPlaces(s, pages, kind, Links(s, pages[m].url), LinkPlaces(s, pages[..m], kind), now);
    }
  }

  lemma OneClass(assets: map<Url, string>, k: nat, name: string)
    requires forall c :: ClassIndex(c) == k <==> c == name
    ensures OfClass(assets, assets.Keys, k) == set u | u in assets && assets[u] == name
  {
  }

  /** Each class counter is the number of assets of that class; together they count every asset. */
  lemma ClassesMean(assets: map<Url, string>, counts: seq<nat>)
    requires Tallied(assets, assets.Keys, counts)
    ensures |counts| == 8 && Sum(counts) == |assets|
    ensures counts[0] == |set u | u in assets && assets[u] == "css"|
    ensures counts[1] == |set u | u in assets && assets[u] == "javascript"|
    ensures counts[2] == |set u | u in assets && assets[u] == "image"|
    ensures counts[3] == |set u | u in assets && assets[u] == "font"|
    ensures counts[4] == |set u | u in assets && assets[u] == "media"|
    ensures counts[5] == |set u | u in assets && assets[u] == "document"|
    ensures counts[6] == |set u | u in assets && assets[u] == "data"|
  {
    OneClass(assets, 0, "css");
    OneClass(assets, 1, "javascript");
    OneClass(assets, 2, "image");
    OneClass(assets, 3, "font");
    OneClass(assets, 4, "media");
    OneClass(assets, 5, "document");
    OneClass(assets, 6, "data");
    assert |assets.Keys| == |assets|;
  }

  /** Work that remains in the queue is a URL within the depth limit that was not visited. */
  lemma WorkRemains(s: Site, c: State, depth: map<Url, nat>) returns (u: Url)
    requires Exploring(s, c, depth) && c.queue != []
    ensures Within(s, MaxDepth, u) && u in c.known && u !in c.seen
  {
    u := c.queue[0].url;
    assert Distance(s, u, depth[u]);
    WithinGrows(s, depth[u], MaxDepth, u);
  }

  lemma CrawlFaithful(s: Site, c: State, depth: map<Url, nat>, totals: Totals, r: Report)
    requires Crawling(s, c, depth, r.assets, totals) && r.failed == FailedPages(r.pages)
    requires r.pages == c.pages && r.visited == c.seen && r.known == c.known && r.fetched == c.fetched && r.discovered == c.discovered
    requires Totals(r.internalLinks, r.externalLinks) == totals && Tallied(r.assets, r.assets.Keys, r.classes) == true
    requires r.limitReached <==> c.queue != []
    ensures Faithful(s, r) == true
  {
    CrawlingExact(s, c, depth);
    if c.queue != [] {
      var u := WorkRemains(s, c, depth);
    }
  }

  /** The page loop, from the seeds until the queue is empty or the page limit is reached. */
  method Explore(s: Site) returns (r: Report)
    ensures Faithful(s, r) == true
    ensures |r.pages| <= MaxPages && (r.limitReached ==> |r.pages| == MaxPages)
    ensures forall u :: u in r.sitemapPages <==> FromSitemaps(s, |s.sitemaps|, u)
  {
    var queue, known, discovered, sitemapPages := SeedQueue(s);
    var c := State(queue, {}, known, [], [], discovered);
    var assets, totals := map[], Totals(0, 0);
    ghost var depth := Zeros(known);
    SeedsKeep(s, queue, known, discovered, sitemapPages);
    while c.queue != [] && |c.pages| < MaxPages
      invariant Crawling(s, c, depth, assets, totals) == true
      invariant |c.pages| <= MaxPages
      decreases MaxPages - |c.pages|, |c.queue|
    {
      var c', assets', links, added := VisitHead(s, c, assets);
      ghost var depth' := Deepen(depth, added, c.queue[0].depth);
      TurnKeeps(s, c, depth, assets, totals, c', assets', links, added, depth');
      depth := depth';
      c, assets := c', assets';
      totals := Totals(totals.internalLinks + links.internalLinks, totals.externalLinks + links.externalLinks);
    }
    var failed := CountFailed(c.pages);
    var classes := CountClasses(assets);
    var limitReached := |c.pages| >= MaxPages && |c.queue| > 0;
    r := Report(c.pages, c.seen, c.known, c.fetched, assets, c.discovered, failed, sitemapPages,
                totals.internalLinks, totals.externalLinks, classes, limitReached);
    CrawlFaithful(s, c, depth, totals, r);
  }

  /**
   The crawl. Every recorded page carries its shortest distance; nothing nearer than a
   recorded page is missed; no URL is fetched twice; and unless the page limit cut it
   short, the visited URLs are exactly those within the depth limit. It stops for every web.
   */
  method Crawl(s: Site) returns (r: Report)
    ensures Faithful(s, r) == true
    // Limits
    ensures |r.pages| <= 500 && (r.limitReached ==> |r.pages| == 500)
    ensures r.visited <= r.known && (r.limitReached <==> r.visited != r.known)
    ensures forall u :: u in r.sitemapPages <==> s.assetClass(u) == "" && exists i :: 0 <= i < |s.sitemaps| && u in s.sitemaps[i]
    // Robots rules
    ensures NoDup(r.fetched) && (forall u :: u in r.fetched ==> u in r.visited)
    ensures forall u, rule :: u in r.fetched && rule in s.rules ==> rule != "/" && !(rule <= s.path(u))
    ensures forall u :: u in r.visited && u !in r.fetched ==> exists rule :: rule in s.rules && (rule == "/" || rule <= s.path(u))
    // Responses
    ensures forall u :: (exists i :: 0 <= i < |r.pages| && r.pages[i].url == u) <==>
              u in r.fetched && (s.fetch(u).failed || s.fetch(u).status >= 400 || s.fetch(u).html)
    ensures forall i :: 0 <= i < |r.pages| ==> r.pages[i].depth <= 8 && r.pages[i].status == s.fetch(r.pages[i].url).status
    ensures forall i :: 0 <= i < |r.pages| ==> (r.pages[i].ok <==> !s.fetch(r.pages[i].url).failed && s.fetch(r.pages[i].url).status < 400)
    // Links
    ensures forall v :: v in r.known <==>
              || v == s.root || (s.assetClass(v) == "" && exists i :: 0 <= i < |s.sitemaps| && v in s.sitemaps[i])
              || (s.kind(v) == Internal && s.assetClass(v) == "" && exists i, k :: (
                    && 0 <= i < |r.pages| && r.pages[i].ok && r.pages[i].depth < 8
                    && 0 <= k < |s.fetch(r.pages[i].url).links| && k < 1000 && s.fetch(r.pages[i].url).links[k] == v))
  {
    r := Explore(s);
    RulesObeyed(s, r);
    PagesFetched(s, r);
    PagesRecorded(s, r);
    KnownMeans(s, r);
    assert forall u :: u in r.sitemapPages <==> FromSitemaps(s, |s.sitemaps|, u);
  }

  // ---------------------------------------------------------------------------
  // Asset counters

  const Classes: nat := 8

  /** The counter an asset of a class goes to. */
  function ClassIndex(name: string): (k: nat)
    ensures k < Classes
  {
    match name
    case "css" => 0
    case "javascript" => 1
    case "image" => 2
    case "font" => 3
    case "media" => 4
    case "document" => 5
    case "data" => 6
    case _ => 7
  }

  ghost function OfClass(assets: map<Url, string>, among: set<Url>, k: nat): set<Url> {
    set u | u in among && u in assets && ClassIndex(assets[u]) == k
  }

  function Sum(counts: seq<nat>): nat {
    if counts == [] then 0 else counts[0] + Sum(counts[1..])
  }

  lemma {:induction false} SumBump(counts: seq<nat>, k: nat)
    requires k < |counts|
    ensures Sum(counts[k := counts[k] + 1]) == Sum(counts) + 1
  {
    if k > 0 {
      SumBump(counts[1..], k - 1);
      assert counts[k := counts[k] + 1][1..] == counts[1..][k - 1 := counts[k] + 1];
    } else {
      assert counts[0 := counts[0] + 1][1..] == counts[1..];
    }
  }

  lemma {:induction false} SumZeros(n: nat)
    ensures Sum(seq(n, _ => 0)) == 0
  {
    if n > 0 {
      assert seq(n, _ => 0)[1..] == seq(n - 1, _ => 0);
      SumZeros(n - 1);
    }
  }

  lemma OneMore(assets: map<Url, string>, done: set<Url>, u: Url, j: nat)
    requires u in assets && u !in done
    ensures |OfClass(assets, done + {u}, j)| == |OfClass(assets, done, j)| + (if j == ClassIndex(assets[u]) then 1 else 0)
  {
    var k := ClassIndex(assets[u]);
    assert OfClass(assets, done + {u}, j) == OfClass(assets, done, j) + (if j == k then {u} else {});
  }

  /** The counters account for the assets in `done`, class by class and in total. */
  ghost predicate Tallied(assets: map<Url, string>, done: set<Url>, counts: seq<nat>) {
    && |counts| == Classes
    && (forall k :: 0 <= k < Classes ==> counts[k] == |OfClass(assets, done, k)|)
    && Sum(counts) == |done|
  }

  lemma TallyNone(assets: map<Url, string>)
    ensures Tallied(assets, {}, seq(Classes, _ => 0)) == true
  {
    SumZeros(Classes);
    assert forall k :: 0 <= k < Classes ==> OfClass(assets, {}, k) == {};
  }

  lemma TallyOne(assets: map<Url, string>, done: set<Url>, counts: seq<nat>, u: Url)
    requires Tallied(assets, done, counts) && u in assets && u !in done
    ensures var k := ClassIndex(assets[u]); Tallied(assets, done + {u}, counts[k := counts[k] + 1]) == true
  {
    var k := ClassIndex(assets[u]);
    SumBump(counts, k);
    forall j | 0 <= j < Classes ensures counts[k := counts[k] + 1][j] == |OfClass(assets, done + {u}, j)| {
      OneMore(assets, done, u, j);
    }
  }

  /** One counter per class; together they account for every asset of the inventory. */
  method CountClasses(assets: map<Url, string>) returns (counts: seq<nat>)
    ensures Tallied(assets, assets.Keys, counts) == true
  {
    counts := seq(Classes, _ => 0);
    TallyNone(assets);
    var todo := assets.Keys;
    ghost var done := {};
    while todo != {}
      invariant todo + done == assets.Keys && todo !! done
      invariant |counts| == Classes && Tallied(assets, done, counts) == true
      decreases |todo|
    {
      var u := Next(todo);
      TallyOne(assets, done, counts, u);
      var k := ClassIndex(assets[u]);
      counts, todo, done := counts[k := counts[k] + 1], todo - {u}, done + {u};
    }
    assert done == assets.Keys;
  }
}
