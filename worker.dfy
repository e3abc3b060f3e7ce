/**
 * The service worker's handlers over the caches it owns. The three named
 * caches are fields that the handlers update in place; the network is an
 * oracle passed to each handler; the worker's origin and its generated
 * constants are fixed when it starts.
 */
module Worker {
  import opened Wrappers
  import opened Keys
  import opened Http
  import opened Resources
  import opened Fetching
  import opened Activation
  import opened Offline

  class ServiceWorker {
    /** `self.location.origin`. */
    const origin: string
    /** `RESOURCES`. */
    const manifest: Manifest
    /** `CORE`. */
    const core: seq<string>

    /** The content cache `flutter-app-cache`. */
    var content: Cache
    /** The temporary cache `flutter-temp-cache`. */
    var temp: Cache
    /** The `manifest` entry of the manifest cache `flutter-app-manifest`. */
    var stored: Option<map<string, Checksum>>

    function State(): CacheState
      reads this
    {
      CacheState(content, temp, stored)
    }

    /** A worker version starting over the caches its host kept. */
    constructor (origin: string, manifest: Manifest, core: seq<string>, caches: CacheState)
      ensures this.origin == origin && this.manifest == manifest && this.core == core
      ensures State() == caches
    {
      this.origin := origin;
      this.manifest := manifest;
      this.core := core;
      content := caches.content;
      temp := caches.temp;
      stored := caches.stored;
    }

    /** install: the shell is fetched, bypassing the HTTP cache, into the temporary cache, all or nothing. */
    method Install(net: Url -> FetchResult) returns (outcome: Outcome<Error>)
      modifies this
      ensures match FetchAll(ResolveAll(origin, core), net)
        case Ok(batch) => temp == old(temp) + batch && outcome == Pass
        case Err(e) => temp == old(temp) && outcome == Fail(e)
      ensures content == old(content) && stored == old(stored)
    {
      var fetched := FetchAll(ResolveAll(origin, core), net);
      match fetched
      case Ok(batch) =>
        temp := temp + batch;
        outcome := Pass;
      case Err(e) =>
        outcome := Fail(e);
    }

    /**
     * activate. `failAt` is the number (from 0) of the cache-API call that
     * throws, if one does. Without a fault the migration runs to the end;
     * a fault anywhere deletes all three caches.
     */
    method Activate(failAt: Option<nat>) returns (ok: bool)
      modifies this
      ensures ok <==> !FaultAmong(failAt, 0, ActivationCalls(old(State()), manifest.sums, origin))
      ensures State() == if ok then Activated(old(State()), manifest.sums, origin) else WIPED
    {
      ok := false;
      // open the three caches; match the stored manifest
      if !FaultAmong(failAt, 0, 4) {
        var faulted, calls;
        if stored.None? {
          faulted, calls := ReplaceWithTemp(failAt, 4);
        } else {
          faulted, calls := Upgrade(stored.value, failAt, 4);
        }
        // delete the temporary cache; put the current manifest
        if !faulted && !FaultAmong(failAt, calls, 2) {
          temp := map[];
          stored := Some(manifest.sums);
          ok := true;
        }
      }
      if !ok {
        // the fail-safe deletes the content, temporary and manifest caches
        content, temp, stored := map[], map[], None;
      }
    }

    /** First install: delete and reopen the content cache, list the temporary cache and copy it over. */
    method ReplaceWithTemp(failAt: Option<nat>, calls0: nat) returns (faulted: bool, calls: nat)
      requires !FaultAmong(failAt, 0, calls0)
      modifies this
      ensures temp == old(temp) && stored == old(stored)
      ensures faulted ==> FaultAmong(failAt, calls0, 3 + 2 * |temp.Keys|)
      ensures !faulted ==> calls == calls0 + 3 + 2 * |temp.Keys| && !FaultAmong(failAt, 0, calls)
      ensures !faulted ==> content == temp
    {
      calls := calls0;
      if FaultAmong(failAt, calls, 3) {
        return true, calls;
      }
      calls := calls + 3;
      content := map[];
      faulted, calls := CopyTemp(failAt, calls);
      assert !faulted ==> content == map[] + temp;
    }

    /**
     * Upgrade: parse the stored manifest, list the content cache, evict what
     * is outdated, list the temporary cache and lay it over what is left.
     */
    method Upgrade(before: map<string, Checksum>, failAt: Option<nat>, calls0: nat) returns (faulted: bool, calls: nat)
      requires !FaultAmong(failAt, 0, calls0)
      modifies this
      ensures temp == old(temp) && stored == old(stored)
      ensures faulted ==> FaultAmong(failAt, calls0, 3 + |EvictedUrls(old(content), manifest.sums, before, origin)| + 2 * |temp.Keys|)
      ensures !faulted ==> calls == calls0 + 3 + |EvictedUrls(old(content), manifest.sums, before, origin)| + 2 * |temp.Keys|
      ensures !faulted ==> !FaultAmong(failAt, 0, calls)
      ensures !faulted ==> content == Survivors(old(content), manifest.sums, before, origin) + temp
    {
      calls := calls0;
      if FaultAmong(failAt, calls, 2) {
        return true, calls;
      }
      calls := calls + 2;
      faulted, calls := EvictOutdated(before, failAt, calls);
      if faulted {
        return;
      }
      if FaultAmong(failAt, calls, 1) {
        return true, calls;
      }
      calls := calls + 1;
      faulted, calls := CopyTemp(failAt, calls);
    }

    /**
     * The upgrade's eviction loop: one `delete` per content entry whose key
     * left the manifest or whose checksum changed since `before`.
     */
    method EvictOutdated(before: map<string, Checksum>, failAt: Option<nat>, calls0: nat)
      returns (faulted: bool, calls: nat)
      requires !FaultAmong(failAt, 0, calls0)
      modifies this
      ensures temp == old(temp) && stored == old(stored)
      ensures faulted ==> FaultAmong(failAt, calls0, |EvictedUrls(old(content), manifest.sums, before, origin)|)
      ensures !faulted ==> calls == calls0 + |EvictedUrls(old(content), manifest.sums, before, origin)|
      ensures !faulted ==> !FaultAmong(failAt, 0, calls)
      ensures !faulted ==> content == Survivors(old(content), manifest.sums, before, origin)
    {
      ghost var c0 := content;
      ghost var stale := EvictedUrls(c0, manifest.sums, before, origin);
      calls := calls0;
      faulted := false;
      var pending := content.Keys;
      assert stale * pending == stale;
      while pending != {}
        invariant temp == old(temp) && stored == old(stored)
        invariant pending <= c0.Keys
        invariant forall u :: u in content <==> u in c0 && (u in pending || u !in stale)
        invariant forall u :: u in content ==> content[u] == c0[u]
        invariant calls + |stale * pending| == calls0 + |stale|
        invariant !FaultAmong(failAt, 0, calls)
        decreases pending
      {
        var u :| u in pending;
        PendingShrinks(stale, pending, u);
        if Evicted(manifest.sums, before, origin, u) {
          if FaultAmong(failAt, calls, 1) {
            faulted := true;
            return;
          }
          calls := calls + 1;
          content := content - {u};
        }
        pending := pending - {u};
      }
      EvictionDone(c0, content, manifest.sums, before, origin);
    }

    /**
     * The copy loop: a `match` and a `put` per temporary entry, overlaying
     * the temporary cache on the content cache.
     */
    method CopyTemp(failAt: Option<nat>, calls0: nat) returns (faulted: bool, calls: nat)
      requires !FaultAmong(failAt, 0, calls0)
      modifies this
      ensures temp == old(temp) && stored == old(stored)
      ensures if faulted then FaultAmong(failAt, calls0, 2 * |temp.Keys|)
              else calls == calls0 + 2 * |temp.Keys| && !FaultAmong(failAt, 0, calls)
                   && content == old(content) + temp
    {
      ghost var c0 := content;
      calls := calls0;
      faulted := false;
      var pending := temp.Keys;
      while pending != {}
        invariant temp == old(temp) && stored == old(stored)
        invariant pending <= temp.Keys
        invariant content == c0 + map u | u in temp && u !in pending :: temp[u]
        invariant calls + 2 * |pending| == calls0 + 2 * |temp.Keys|
        invariant !FaultAmong(failAt, 0, calls)
        decreases pending
      {
        var u :| u in pending;
        if FaultAmong(failAt, calls, 2) {
          faulted := true;
          return;
        }
        calls := calls + 2;
        content := content[u := temp[u]];
        pending := pending - {u};
      }
      assert (map u | u in temp && u !in pending :: temp[u]) == temp;
    }

    /**
     * fetch: a GET for a manifest resource is answered network-first for the
     * root and cache-first otherwise; anything else is left to the browser.
     */
    method HandleFetch(req: Request, net: FetchResult) returns (reply: Reply)
      modifies this
      ensures (reply, content) == FetchStep(manifest.sums, origin, old(content), req, net)
      ensures temp == old(temp) && stored == old(stored)
    {
      if req.verb != "GET" {
        return Declined;
      }
      var key := FetchKey(req.url, origin);
      if key !in manifest.sums {
        return Declined;
      }
      if key == ROOT {
        reply := OnlineFirst(req.url, net);
        return;
      }
      reply := CacheFirst(req.url, net);
    }

    /** The cache-first branch of the fetch handler. */
    method CacheFirst(url: Url, net: FetchResult) returns (reply: Reply)
      modifies this
      ensures (reply, content) == CacheFirstStep(old(content), url, net)
      ensures temp == old(temp) && stored == old(stored)
    {
      if url in content {
        reply := Served(content[url]);
      } else {
        match net
        case Failed(e) =>
          reply := Raised(e);
        case Fetched(response) =>
          if response.Ok() {
            content := content[url := response];
          }
          reply := Served(response);
      }
    }

    /** `onlineFirst`: the network, falling back to the content cache, for the site root. */
    method OnlineFirst(url: Url, net: FetchResult) returns (reply: Reply)
      modifies this
      ensures (reply, content) == NetworkFirstStep(old(content), url, net)
      ensures temp == old(temp) && stored == old(stored)
    {
      match net
      case Fetched(response) =>
        content := content[url := response];
        reply := Served(response);
      case Failed(e) =>
        if url in content {
          reply := Served(content[url]);
        } else {
          reply := Raised(e);
        }
    }

    /**
     * `downloadOffline`: collects the keys of the cached requests, lists the
     * manifest keys among them not yet cached, in manifest order, and adds
     * those to the content cache with one all-or-nothing `addAll`.
     */
    method DownloadOffline(net: Url -> FetchResult) returns (requested: seq<string>, outcome: Outcome<Error>)
      modifies this
      ensures requested == Missing(manifest.order, CachedKeys(old(content), origin))
      ensures match FetchAll(ResolveAll(origin, requested), net)
        case Ok(batch) => content == old(content) + batch && outcome == Pass
        case Err(e) => content == old(content) && outcome == Fail(e)
      ensures temp == old(temp) && stored == old(stored)
    {
      var present := CollectCachedKeys();
      requested := ListMissing(present);
      var fetched := FetchAll(ResolveAll(origin, requested), net);
      match fetched
      case Ok(batch) =>
        content := content + batch;
        outcome := Pass;
      case Err(e) =>
        outcome := Fail(e);
    }

    /** The first loop of `downloadOffline`: the key of every cached request. */
    method CollectCachedKeys() returns (present: set<string>)
      ensures present == CachedKeys(content, origin)
    {
      present := {};
      var pending := content.Keys;
      while pending != {}
        invariant pending <= content.Keys
        invariant present == set u | u in content && u !in pending :: StoredKey(u, origin)
        decreases pending
      {
        var u :| u in pending;
        present := present + {StoredKey(u, origin)};
        pending := pending - {u};
      }
    }

    /** The second loop of `downloadOffline`: the manifest keys not in `present`, in manifest order. */
    method ListMissing(present: set<string>) returns (requested: seq<string>)
      ensures requested == Missing(manifest.order, present)
    {
      requested := [];
      var i := 0;
      while i < |manifest.order|
        invariant i <= |manifest.order|
        invariant requested == Missing(manifest.order[..i], present)
      {
        var key := manifest.order[i];
        assert manifest.order[..i + 1] == manifest.order[..i] + [key];
        MissingSnoc(manifest.order[..i], key, present);
        if key !in present {
          requested := requested + [key];
        }
        i := i + 1;
      }
      assert manifest.order[..i] == manifest.order;
    }
  }
}
