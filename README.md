# Flutter service worker: a verified model

This Dafny project models the bookkeeping of the service worker that Flutter
generates for a web build (`flutter_service_worker.js`). The worker owns three
browser caches:

- the content cache `flutter-app-cache`;
- the temporary cache `flutter-temp-cache`, which install fills with the
  application shell;
- the manifest cache `flutter-app-manifest`, which keeps the resource
  manifest saved by the last successful activation.

The worker does five things, and each is modelled:

- **Key derivation.** It maps a request URL to a key of the build-time
  resource manifest `RESOURCES` (key to checksum).
- **Install.** It downloads the `CORE` shell into the temporary cache.
- **Activate.** It migrates the caches. On first install the content cache
  is replaced by the temporary cache. On upgrade, stale entries are evicted
  and the temporary entries are laid over what is left. On any error all
  three caches are wiped.
- **Fetch.** It answers GET requests for manifest resources: cache-first,
  except for the site root, which is network-first.
- **Download offline.** It downloads every manifest resource not yet cached.

How the model is built:

- Caches are maps from request URL to response. The stored manifest is an
  optional map from key to checksum.
- A single `fetch` is a `FetchResult` parameter. `Cache.addAll` is a network
  oracle `Url -> FetchResult` behind the all-or-nothing function
  `Http.FetchAll`.
- The key functions and the fetch policies are pure functions (modules
  `Keys`, `Fetching`, `Activation`, `Offline`). Each property is proved as a
  lemma about them.
- The handlers that update caches in place are methods of the class
  `Worker.ServiceWorker`. Its fields are the three caches. Each method is
  proved against those functions.
- Activation's `try`/`catch` is modelled by fault injection. `failAt` names
  the cache-API call that throws, and the postcondition covers every choice
  of it.

Three behaviours of the code are worth knowing.

First, a request carrying a `?v=` cache-busting suffix is routed by the same
key as the bare request (`Fetching.VersionedRequestSameRoute`). It is still
looked up and stored under its own full URL, so a cached bare entry is not
served for it (`Fetching.VersionedRequestOwnEntry`).

Second, the activation and download code derive keys without cutting `?v=`.
So an entry cached under a versioned URL is evicted by every upgrade
(`Activation.VersionedEntryEvicted`).

Third, the key derivation never checks that a URL starts with the worker's
origin: it only cuts as many characters as the origin is long, plus one.
`Keys.FetchKey` does the same. A cross-origin URL whose origin has the same
length as the worker's is therefore routed by its path, and it is intercepted
when that path is a manifest key. A URL no longer than the origin plus one
character, cross-origin or not, leaves nothing after the cut, so its key is
`/` (the third ensures of `Keys.FetchKey`). With `/` in the manifest, as
in the generated one, such a request is handled network-first, and its
response is stored under its own, possibly foreign, URL:
`https://cdn.io/a.js` requested from `https://app.example.com` is one.

## Model

| member | source | states |
|---|---|---|
| Keys.Substring | flutter_service_worker.js:147 | `substring(from)` is the suffix after the first `from` characters, and empty when `from` is past the end |
| Keys.IndexOfFrom | flutter_service_worker.js:149 | returns -1 exactly when the pattern does not occur at or after `from`; otherwise the first occurrence from there |
| Keys.IndexOf | flutter_service_worker.js:149 | returns -1 exactly when the pattern does not occur; otherwise the position of the first occurrence |
| Keys.BeforeFirst | flutter_service_worker.js:150 | `split(sep)[0]` is a prefix of the string that holds no `sep`, and is either the whole string or followed by `sep` |
| Keys.StartsWithSplits | flutter_service_worker.js:152 | `startsWith(prefix)` holds exactly when the string is the prefix followed by some rest |
| Keys.FetchKey | flutter_service_worker.js:146-154 | the key is never empty and holds no `?v=`; it is `/` for the bare origin, an `origin/#` URL, an empty path and a path starting with `?v=`; otherwise it is the path after the origin and one separator, cut before the first `?v=` |
| Keys.StoredKey | flutter_service_worker.js:107-111 | the key is never empty, and for a URL strictly longer than `origin/` and starting with it, the URL is `origin/` followed by the key (no `?v=` cut, no `#` rule) |
| Keys.ResolveUnderOrigin | flutter_service_worker.js:76 | `new Request(key)` resolves under `origin + "/"`, and cutting the origin and one separator gives back the key without a leading `/` |
| Keys.ResolveAll | flutter_service_worker.js:75-76 | each key becomes the request URL `new Request(key)` resolves to, in the same order |
| Keys.StoredKeyOfResolve | flutter_service_worker.js:198-201 | deriving the stored key of a resolved manifest key gives the key back |
| Keys.ResolveInjective | flutter_service_worker.js:204-209 | distinct manifest keys resolve to distinct request URLs |
| Keys.FetchKeyOfResolve | flutter_service_worker.js:146-154 | the fetch key of a resolved manifest key (no `?v=`, no leading `#`) is that key |
| Keys.VersionedUrlSameKey | flutter_service_worker.js:149-151 | appending `?v=` and any version to a path leaves the fetch key unchanged |
| Http.FetchAll | flutter_service_worker.js:75-76 | `addAll` succeeds exactly when the requests are distinct and each fetches an ok response; the stored batch then maps exactly those requests to their responses |
| Resources.CoreKeysAreValid | flutter_service_worker.js:64-68 | every `CORE` file is written as a manifest key: a non-empty relative path of letters, digits, `_`, `-`, `.` and `/` with no `.` or `..` segment |
| Resources.CoreKeysAreResources | flutter_service_worker.js:6-68 | every `CORE` file is a `RESOURCES` key, and so is the root `/` |
| Fetching.Dispatch | flutter_service_worker.js:143-163 | declined exactly when the request is not GET or its key is not a resource; network-first exactly for a GET whose key is `/`; cache-first otherwise |
| Fetching.CacheFirstStep | flutter_service_worker.js:164-177 | cache-first always replies; it raises only on a miss whose fetch failed, leaving the cache unchanged; a changed cache is the old one plus the served response under the requested URL |
| Fetching.NetworkFirstStep | flutter_service_worker.js:213-231 | network-first always replies; it raises only when nothing is cached, leaving the cache unchanged; the requested URL is added to the cache exactly when the fetch succeeded |
| Fetching.FetchStep | flutter_service_worker.js:142-178 | the handler declines exactly the requests `Dispatch` declines, leaving the cache unchanged then; only the requested URL's entry can change or appear |
| Fetching.ResolvedRequestRoute | flutter_service_worker.js:143-163 | a GET for a resolved manifest key is network-first for `/` and cache-first for every other key |
| Fetching.VersionedRequestSameRoute | flutter_service_worker.js:146-163 | a `?v=` suffix never changes the route of a request |
| Fetching.VersionedRequestOwnEntry | flutter_service_worker.js:164-177 | a versioned request is served from the network even when the bare URL is cached, and is stored under the versioned URL when ok |
| Fetching.DeclinedLeavesCache | flutter_service_worker.js:143-159 | a declined request gets no reply from the worker and leaves the cache unchanged |
| Fetching.CacheFirstHit | flutter_service_worker.js:166-169 | a hit is served from the cache, unchanged, whatever the network would do |
| Fetching.CacheFirstMiss | flutter_service_worker.js:169-174 | on a miss the fetched response is served and stored only when ok; a fetch error propagates and the cache is unchanged |
| Fetching.CacheFirstStoresOnlyOk | flutter_service_worker.js:169-172 | cache-first touches no entry but the requested one, keeps every existing entry, and adds only an ok response |
| Fetching.CacheFirstRepeat | flutter_service_worker.js:164-177 | after an ok response is served, a second request for the same URL gets the same reply from the cache, whatever the network does |
| Fetching.NetworkFirstOnline | flutter_service_worker.js:215-219 | a fetched response is served and stored, whether or not it is ok |
| Fetching.NetworkFirstOffline | flutter_service_worker.js:220-228 | on a fetch error the cached response is served if present, else the original error is re-raised; the cache is unchanged either way |
| Fetching.PoliciesDifferOnNotOk | flutter_service_worker.js:169-172 | a response that is not ok is stored by network-first and not by cache-first |
| Fetching.FetchRepeatIsCached | flutter_service_worker.js:164-177 | a repeated GET for a cache-first resource just served ok is answered from the cache without the network |
| Activation.Evicted | flutter_service_worker.js:108-118 | an entry is evicted exactly when `!RESOURCES[key]` or `RESOURCES[key] != oldManifest[key]` holds under JavaScript lookup, where a missing key reads as `undefined` |
| Activation.Survivors | flutter_service_worker.js:107-118 | the kept entries are the content cache minus the evicted requests, each with its old response |
| Activation.Activated | flutter_service_worker.js:91-129 | a successful activation empties the temporary cache, stores `RESOURCES`, puts every temporary entry into the content cache with its temporary response, and adds nothing from outside the two caches |
| Activation.ShellBatchIsManifest | flutter_service_worker.js:71-79 | when the shell files are manifest keys, every request install stores in the temporary cache has a manifest key as its stored key |
| Activation.InstalledShellIsCurrent | flutter_service_worker.js:64-79 | for the generated `CORE` and `RESOURCES`, the installed shell batch meets the requirement of the activation lemmas below |
| Activation.FirstActivation | flutter_service_worker.js:91-103 | with no stored manifest the content cache becomes exactly the temporary cache, the temporary cache is emptied and `RESOURCES` is stored |
| Activation.UpgradeEviction | flutter_service_worker.js:107-118 | an old entry not replaced by a temporary one is gone exactly when its key left the manifest, was absent from the old manifest, or changed checksum; a kept entry keeps its response |
| Activation.UpgradeOverlay | flutter_service_worker.js:119-129 | every temporary entry lands in the content cache with its temporary response; nothing from outside the two caches appears; temp is emptied and `RESOURCES` stored |
| Activation.ActivatedContentIsCurrent | flutter_service_worker.js:105-129 | after activation every content entry is a resource that came from the temporary cache or was kept with an unchanged checksum |
| Activation.ReactivationIsNoop | flutter_service_worker.js:105-129 | activating again with nothing new in the temporary cache leaves all three caches as they are |
| Activation.VersionedEntryEvicted | flutter_service_worker.js:107-118 | an entry cached under a `?v=` URL is evicted by every upgrade |
| Offline.CachedKeys | flutter_service_worker.js:197-203 | the present keys are exactly the keys derived from cached requests: each derived key is present and each present key is derived from some cached request; so every manifest key whose resolved request is cached is present, and an empty cache has none |
| Offline.MissingMembers | flutter_service_worker.js:204-208 | a key is listed exactly when it is in the manifest and not present |
| Offline.MissingDistinct | flutter_service_worker.js:204-208 | with distinct manifest keys, no key is listed twice |
| Offline.MissingConcat | flutter_service_worker.js:204-208 | the listing keeps manifest order: it distributes over concatenation |
| Offline.RequestsDistinct | flutter_service_worker.js:204-209 | distinct manifest keys give `addAll` distinct requests |
| Offline.AllResolvedOk | flutter_service_worker.js:209 | every request `addAll` is given fetches ok exactly when the request of every listed key does |
| Offline.DownloadSucceedsIff | flutter_service_worker.js:193-210 | the download succeeds exactly when every missing resource fetches with an ok response |
| Offline.DownloadCompletes | flutter_service_worker.js:193-210 | after a successful download every manifest key is among the cached keys |
| Worker.ServiceWorker.Install | flutter_service_worker.js:71-79 | the shell batch is added to the temporary cache when `addAll` succeeds; otherwise nothing changes and the error is reported |
| Worker.ServiceWorker.Activate | flutter_service_worker.js:83-139 | succeeds exactly when no cache-API call faults; then the caches are the migrated state, and otherwise the fail-safe of lines 131-137 leaves all three deleted (`WIPED`) |
| Worker.ServiceWorker.ReplaceWithTemp | flutter_service_worker.js:91-98 | the first-install path: without a fault the content cache becomes the temporary cache, after 3 + 2 per temporary entry calls |
| Worker.ServiceWorker.Upgrade | flutter_service_worker.js:105-124 | the upgrade path: without a fault the content cache becomes the survivors overlaid by the temporary cache, with a call count of one per eviction |
| Worker.ServiceWorker.EvictOutdated | flutter_service_worker.js:107-118 | the eviction loop deletes exactly the stale entries, one call each, and keeps the others unchanged |
| Worker.ServiceWorker.CopyTemp | flutter_service_worker.js:121-124 | the copy loop overlays the temporary cache on the content cache, two calls per entry |
| Worker.ServiceWorker.HandleFetch | flutter_service_worker.js:142-178 | the reply and the new content cache are those of the fetch step; the other caches are unchanged |
| Worker.ServiceWorker.CacheFirst | flutter_service_worker.js:164-177 | the reply and the new content cache are those of the cache-first step |
| Worker.ServiceWorker.OnlineFirst | flutter_service_worker.js:213-231 | the reply and the new content cache are those of the network-first step |
| Worker.ServiceWorker.DownloadOffline | flutter_service_worker.js:193-210 | requests exactly the missing manifest keys in manifest order; the batch is added when `addAll` succeeds, and nothing changes otherwise |
| Worker.ServiceWorker.CollectCachedKeys | flutter_service_worker.js:197-203 | collects the stored key of every cached request |
| Worker.ServiceWorker.ListMissing | flutter_service_worker.js:204-208 | lists the manifest keys not collected, in manifest order |

## Left out

- Browser Cache Storage, `fetch`, and `Request`/`Response` objects: host APIs, modelled as maps and a fetch-result oracle. A cache is keyed by the full request URL, `#` fragment included.
- Cache matching ignores the `#` fragment in a real browser, and the model does not. Offline, `Fetching.NetworkFirstStep` therefore raises for `origin/#/route`, where a browser would serve the cached `origin/` entry.
- `Http.Response.Ok` accepts every status from 200 to 299, including 206. A real `Cache.put` and `addAll` refuse a 206 partial response; the model stores it.
- Why `addAll` rejects: the model keeps the outcome (a network error, a response that is not ok, or a duplicate request) but reports only the first failing request's error. The error a real browser reports is host-defined.
- Promise scheduling, `waitUntil` and `respondWith` lifetimes, and the race between activation and fetch: concurrency is outside the model. Each handler runs to completion.
- The `put` calls in the fetch paths are not awaited. The model applies them before the reply.
- `skipWaiting`, `clients.claim` and `console.error` are host side effects with no state of their own.
- The message handler is a two-way dispatch onto `skipWaiting` and `DownloadOffline`, so it is not modelled.
- `JSON.stringify` and `manifest.json()` are not modelled. The stored manifest is the checksum map itself.
- The concrete checksum values of `RESOURCES` are not modelled. `Resources.RESOURCE_KEYS` keeps only the keys.
- That every generated key satisfies `ValidKey` is stated as part of `Manifest.Valid`, not proved about `RESOURCE_KEYS`: proving it over the 56 literal keys was too costly for the solver.
- Worker.ServiceWorker.Activate: an error thrown by one of the fail-safe's own `caches.delete` calls is not modelled; the fail-safe always succeeds.
- Worker.ServiceWorker.Activate: a fault is one throwing cache-API call, placed by its number in the call sequence. The iteration order of `keys()` is a nondeterministic choice, so the calls before the fault are not tied to a specific request.
- Keys.Resolve assumes the worker is served from the site root, so a relative key resolves against `origin + "/"`.
- Keys.Resolve models `new Request(key)` as concatenation and does no URL parsing: no percent-encoding and no removal of `.` and `..` segments. `Keys.ValidKey` admits only keys that parsing leaves unchanged: letters, digits, `_`, `-`, `.` and `/`, with no `.` or `..` segment. `ResolveInjective`, `StoredKeyOfResolve`, `FetchKeyOfResolve`, the third ensures of `Offline.CachedKeys` and `DownloadCompletes` are stated for such keys only. A key such as `a b.png` or `./index.html` is outside them.
- In the download loop, `origin` is the worker's own origin, the same one the other handlers use.
- JavaScript object lookups with inherited names (`constructor`, `__proto__` and the like) are truthy on `{}` and on `RESOURCES`. The model treats every key as a plain map lookup.
- `Object.keys` lists integer-like keys first. The model takes `Manifest.order` as the listing order, and no generated key is integer-like.
- String lengths count Dafny characters, not JavaScript UTF-16 code units, so `substring(origin.length + 1)` agrees with the model only for origins whose characters each take one code unit.
