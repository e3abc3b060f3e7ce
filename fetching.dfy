/**
 * The fetch handler: which requests the worker answers, and the two
 * response policies it answers them with. A cache is a map from request URL
 * to response; each step returns what the worker replies and the content
 * cache afterwards.
 */
module Fetching {
  import opened Keys
  import opened Http
  import opened Resources

  type Cache = map<Url, Response>

  /** How the fetch handler treats a request. */
  datatype Route =
    | Decline       // not intercepted: the browser fetches as usual
    | NetworkFirst  // the site root: network, falling back to the cache
    | CacheFirst    // any other manifest resource: cache, falling back to the network

  /** The handler's decision for `req`, given the manifest's checksums. */
  function Dispatch(req: Request, sums: map<string, Checksum>, origin: string): (route: Route)
    ensures route.Decline? <==> req.verb != "GET" || FetchKey(req.url, origin) !in sums
    ensures route.NetworkFirst? <==> req.verb == "GET" && FetchKey(req.url, origin) == ROOT && ROOT in sums
  {
    if req.verb != "GET" then Decline
    else
      var key := FetchKey(req.url, origin);
      if key !in sums then Decline
      else if key == ROOT then NetworkFirst
      else CacheFirst
  }

  /** What the worker hands back to the page. */
  datatype Reply =
    | Declined                  // the request was left to the browser
    | Served(response: Response)
    | Raised(error: Error)      // the promise given to `respondWith` rejects

  /**
   * Cache-first: a cached response is served without touching the network;
   * on a miss the network's response is served, and stored only when ok.
   */
  function CacheFirstStep(cache: Cache, url: Url, net: FetchResult): (r: (Reply, Cache))
    ensures !r.0.Declined?
    ensures r.0.Raised? ==> url !in cache && net.Failed? && r.1 == cache
    ensures r.0.Served? && r.1 != cache ==> url !in cache && r.1 == cache[url := r.0.response]
  {
    if url in cache then (Served(cache[url]), cache)
    else
      match net
      case Failed(e) => (Raised(e), cache)
      case Fetched(response) =>
        (Served(response), if response.Ok() then cache[url := response] else cache)
  }

  /**
   * Network-first: a fetched response is stored, whatever its status, and
   * served; when the fetch fails the cached response is served, and with
   * none cached the fetch's error is re-raised.
   */
  function NetworkFirstStep(cache: Cache, url: Url, net: FetchResult): (r: (Reply, Cache))
    ensures !r.0.Declined?
    ensures r.0.Raised? ==> url !in cache && r.1 == cache
    ensures r.1.Keys == cache.Keys + (if net.Fetched? then {url} else {})
  {
    match net
    case Fetched(response) => (Served(response), cache[url := response])
    case Failed(e) => if url in cache then (Served(cache[url]), cache) else (Raised(e), cache)
  }

  /** One fetch event: route the request, then apply the chosen policy. */
  function FetchStep(sums: map<string, Checksum>, origin: string, cache: Cache, req: Request, net: FetchResult)
    : (r: (Reply, Cache))
    ensures r.0.Declined? <==> Dispatch(req, sums, origin).Decline?
    ensures r.0.Declined? ==> r.1 == cache
    ensures r.1.Keys <= cache.Keys + {req.url}
    ensures forall u :: u in cache && u != req.url ==> u in r.1 && r.1[u] == cache[u]
  {
    match Dispatch(req, sums, origin)
    case Decline => (Declined, cache)
    case NetworkFirst => NetworkFirstStep(cache, req.url, net)
    case CacheFirst => CacheFirstStep(cache, req.url, net)
  }

  /**
   * A GET for a manifest key, made by resolving that key, is routed by the
   * key: network-first for the root, cache-first otherwise.
   */
  lemma ResolvedRequestRoute(sums: map<string, Checksum>, origin: string, k: string)
    requires k in sums && ValidKey(k) && !Contains(k, VERSION_QUERY) && !StartsWith(k, "#")
    ensures Dispatch(Request("GET", Resolve(origin, k)), sums, origin)
         == if k == ROOT then NetworkFirst else CacheFirst
  {
    FetchKeyOfResolve(origin, k);
  }

  /** A `?v=` cache-busting suffix does not change how a request is routed. */
  lemma VersionedRequestSameRoute(sums: map<string, Checksum>, origin: string, verb: string, path: string, version: string)
    requires !Contains(path, VERSION_QUERY)
    ensures Dispatch(Request(verb, origin + "/" + path + VERSION_QUERY + version), sums, origin)
         == Dispatch(Request(verb, origin + "/" + path), sums, origin)
  {
    VersionedUrlSameKey(origin, path, version);
  }

  /**
   * A `?v=` request is routed like the bare one but looked up under its own
   * URL: a cached bare entry is not served for it, and the network's
   * response is served (and stored under the versioned URL when ok).
   */
  lemma VersionedRequestOwnEntry(sums: map<string, Checksum>, origin: string, cache: Cache,
                                 path: string, version: string, r: Response)
    requires !Contains(path, VERSION_QUERY)
    requires Dispatch(Request("GET", origin + "/" + path), sums, origin).CacheFirst?
    requires origin + "/" + path + VERSION_QUERY + version !in cache
    ensures var url := origin + "/" + path + VERSION_QUERY + version;
      FetchStep(sums, origin, cache, Request("GET", url), Fetched(r))
      == (Served(r), if r.Ok() then cache[url := r] else cache)
  {
    VersionedRequestSameRoute(sums, origin, "GET", path, version);
  }

  /**
   * A request the handler declines leaves the cache as it was, whatever the
   * network does. This reads off the `Decline` branch of FetchStep: it
   * states the promise, it is not an independent result.
   */
  lemma DeclinedLeavesCache(sums: map<string, Checksum>, origin: string, cache: Cache, req: Request, net: FetchResult)
    requires req.verb != "GET" || FetchKey(req.url, origin) !in sums
    ensures FetchStep(sums, origin, cache, req, net) == (Declined, cache)
  {
  }

  /**
   * Cache-first: a hit is served from the cache and the network is not
   * consulted (the outcome is the same for every network result). This
   * reads off the hit branch of CacheFirstStep.
   */
  lemma CacheFirstHit(cache: Cache, url: Url, net1: FetchResult, net2: FetchResult)
    requires url in cache
    ensures CacheFirstStep(cache, url, net1) == CacheFirstStep(cache, url, net2) == (Served(cache[url]), cache)
  {
  }

  /**
   * Cache-first on a miss: the fetched response is served and stored only
   * when ok; a fetch error is raised and the cache is unchanged. This
   * reads off the miss branch of CacheFirstStep.
   */
  lemma CacheFirstMiss(cache: Cache, url: Url, net: FetchResult)
    requires url !in cache
    ensures var (reply, after) := CacheFirstStep(cache, url, net);
      match net
      case Fetched(r) => reply == Served(r) && after == (if r.Ok() then cache[url := r] else cache)
      case Failed(e) => reply == Raised(e) && after == cache
  {
  }

  /**
   * Cache-first never stores a response that is not ok and never touches an
   * entry other than the requested one.
   */
  lemma CacheFirstStoresOnlyOk(cache: Cache, url: Url, net: FetchResult)
    ensures var (_, after) := CacheFirstStep(cache, url, net);
      && after.Keys <= cache.Keys + {url}
      && (forall u :: u in cache ==> u in after && after[u] == cache[u])
      && (url in after && url !in cache ==> after[url].Ok())
  {
  }

  /**
   * A second cache-first request for a URL just served with an ok response
   * is answered from the cache with the same response, the cache unchanged,
   * whatever the network would now do.
   */
  lemma CacheFirstRepeat(cache: Cache, url: Url, net1: FetchResult, net2: FetchResult)
    requires var (reply, _) := CacheFirstStep(cache, url, net1); reply.Served? && reply.response.Ok()
    ensures var (reply, after) := CacheFirstStep(cache, url, net1);
      CacheFirstStep(after, url, net2) == (reply, after)
  {
  }

  /**
   * Network-first, online: the fetched response is served and stored,
   * whether or not it is ok. This reads off the `Fetched` branch of
   * NetworkFirstStep.
   */
  lemma NetworkFirstOnline(cache: Cache, url: Url, r: Response)
    ensures NetworkFirstStep(cache, url, Fetched(r)) == (Served(r), cache[url := r])
  {
  }

  /**
   * Network-first, offline: the cached response if there is one, otherwise
   * the fetch's own error; the cache is unchanged either way. This reads
   * off the `Failed` branch of NetworkFirstStep.
   */
  lemma NetworkFirstOffline(cache: Cache, url: Url, e: Error)
    ensures var (reply, after) := NetworkFirstStep(cache, url, Failed(e));
      && after == cache
      && reply == (if url in cache then Served(cache[url]) else Raised(e))
  {
  }

  /**
   * The two policies differ on a response that is not ok: network-first
   * stores it, cache-first does not. This sets the miss branches of the two
   * step functions side by side.
   */
  lemma PoliciesDifferOnNotOk(cache: Cache, url: Url, r: Response)
    requires url !in cache && !r.Ok()
    ensures url in NetworkFirstStep(cache, url, Fetched(r)).1
    ensures url !in CacheFirstStep(cache, url, Fetched(r)).1
  {
  }

  /**
   * A repeated GET for a cache-first manifest resource that was just served
   * with an ok response is answered from the cache, the network unused.
   */
  lemma FetchRepeatIsCached(sums: map<string, Checksum>, origin: string, cache: Cache, req: Request, net1: FetchResult, net2: FetchResult)
    requires Dispatch(req, sums, origin).CacheFirst?
    requires var (reply, _) := FetchStep(sums, origin, cache, req, net1); reply.Served? && reply.response.Ok()
    ensures var (reply, after) := FetchStep(sums, origin, cache, req, net1);
      FetchStep(sums, origin, after, req, net2) == (reply, after)
  {
    CacheFirstRepeat(cache, req.url, net1, net2);
  }
}
