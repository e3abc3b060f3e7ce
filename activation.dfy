/**
 * The activate handler's migration over the worker's three caches: the
 * content cache, the temporary cache filled on install, and the manifest
 * cache holding the manifest stored by the last successful activation.
 */
module Activation {
  import opened Wrappers
  import opened Keys
  import opened Http
  import opened Resources
  import opened Fetching

  /**
   * The caches the migration works on. A deleted cache is the empty map: the
   * worker reaches every cache through `caches.open`, which recreates a
   * deleted one empty. `stored` is the manifest cache's `manifest` entry.
   */
  datatype CacheState = CacheState(content: Cache, temp: Cache, stored: Option<map<string, Checksum>>)

  /** All three caches deleted: what the fail-safe leaves behind. */
  const WIPED := CacheState(map[], map[], None)

  /** JavaScript `m[k]` on a manifest object: the checksum, or `undefined` (None) for a missing key. */
  function Lookup(m: map<string, Checksum>, k: string): Option<Checksum> {
    if k in m then Some(m[k]) else None
  }

  /**
   * On upgrade, the cached request `url` is deleted when its key is no
   * longer a resource, or its checksum differs from the stored one (a key
   * the stored manifest lacks has no equal checksum). Checksums are never
   * empty, so the truthiness test `!RESOURCES[key]` is exactly absence:
   * the ensures states the test as JavaScript evaluates it.
   */
  predicate Evicted(sums: map<string, Checksum>, previous: map<string, Checksum>, origin: string, url: Url): (stale: bool)
    ensures var key := StoredKey(url, origin);
      stale <==> Lookup(sums, key).None? || Lookup(sums, key) != Lookup(previous, key)
  {
    var key := StoredKey(url, origin);
    key !in sums || key !in previous || sums[key] != previous[key]
  }

  /** The content-cache entries the upgrade keeps, with their responses. */
  function Survivors(content: Cache, sums: map<string, Checksum>, previous: map<string, Checksum>, origin: string): (kept: Cache)
    ensures kept.Keys == content.Keys - EvictedUrls(content, sums, previous, origin)
    ensures forall u :: u in kept ==> kept[u] == content[u]
  {
    map u | u in content && !Evicted(sums, previous, origin, u) :: content[u]
  }

  /** The requests the upgrade deletes from the content cache. */
  function EvictedUrls(content: Cache, sums: map<string, Checksum>, previous: map<string, Checksum>, origin: string): set<Url> {
    set u | u in content && Evicted(sums, previous, origin, u)
  }

  /** Taking one request out of the pending set lowers the count of pending evictions by one exactly when it is evicted. */
  lemma PendingShrinks(stale: set<Url>, pending: set<Url>, u: Url)
    requires u in pending
    ensures |stale * (pending - {u})| == |stale * pending| - (if u in stale then 1 else 0)
  {
    if u in stale {
      assert stale * (pending - {u}) == stale * pending - {u};
    } else {
      assert stale * (pending - {u}) == stale * pending;
    }
  }

  /** A cache that kept exactly the non-evicted entries, unchanged, is the survivors map. */
  lemma EvictionDone(content: Cache, after: Cache, sums: map<string, Checksum>, previous: map<string, Checksum>, origin: string)
    requires forall u :: u in after <==> u in content && u !in EvictedUrls(content, sums, previous, origin)
    requires forall u :: u in after ==> after[u] == content[u]
    ensures after == Survivors(content, sums, previous, origin)
  {
  }

  /**
   * A successful activation. With no stored manifest the content cache is
   * replaced by the temporary cache; otherwise the stale entries are evicted
   * and the temporary entries laid over the survivors. Either way the
   * temporary cache is deleted and the current manifest is stored.
   */
  function Activated(s: CacheState, sums: map<string, Checksum>, origin: string): (after: CacheState)
    ensures after.temp == map[] && after.stored == Some(sums)
    ensures forall u :: u in s.temp ==> u in after.content && after.content[u] == s.temp[u]
    ensures after.content.Keys <= s.content.Keys + s.temp.Keys
  {
    match s.stored
    case None => CacheState(s.temp, map[], Some(sums))
    case Some(previous) => CacheState(Survivors(s.content, sums, previous, origin) + s.temp, map[], Some(sums))
  }

  /**
   * The number of cache-API calls a successful activation makes: three
   * `caches.open` and the manifest `match`; then on first install a
   * `caches.delete`, an `open` and a `keys`, or on upgrade a `json`, a `keys`,
   * one `delete` per evicted entry and another `keys`; a `match` and a `put`
   * per temporary entry; finally the `delete` of the temporary cache and the
   * `put` of the manifest.
   */
  function ActivationCalls(s: CacheState, sums: map<string, Checksum>, origin: string): nat {
    match s.stored
    case None => 4 + 3 + 2 * |s.temp.Keys| + 2
    case Some(previous) => 4 + 3 + |EvictedUrls(s.content, sums, previous, origin)| + 2 * |s.temp.Keys| + 2
  }

  /** The call numbered `failAt` (counting from 0), if any, lies among the next `n` from call `from` on. */
  predicate FaultAmong(failAt: Option<nat>, from: nat, n: nat) {
    failAt.Some? && from <= failAt.value < from + n
  }

  /**
   * First activation: the content cache is exactly the temporary cache; then
   * temp is gone and the manifest stored. This reads off the `None` branch
   * of Activated.
   */
  lemma FirstActivation(s: CacheState, sums: map<string, Checksum>, origin: string)
    requires s.stored.None?
    ensures Activated(s, sums, origin) == CacheState(s.temp, map[], Some(sums))
  {
  }

  /**
   * Upgrade eviction: an entry the temporary cache does not replace is gone
   * exactly when its key left the manifest or its checksum changed (or was
   * never stored); an entry that stays keeps its response; nothing is added
   * but temporary entries.
   */
  lemma UpgradeEviction(s: CacheState, sums: map<string, Checksum>, origin: string, url: Url)
    requires s.stored.Some? && url in s.content && url !in s.temp
    ensures var after := Activated(s, sums, origin).content;
      var key := StoredKey(url, origin);
      && (url !in after <==> key !in sums || key !in s.stored.value || sums[key] != s.stored.value[key])
      && (url in after ==> after[url] == s.content[url])
  {
  }

  /**
   * Upgrade overlay: every temporary entry ends up in the content cache with
   * its temporary response, overriding a survivor; the content cache holds
   * nothing that was in neither cache; temp is gone and the manifest stored.
   */
  lemma UpgradeOverlay(s: CacheState, sums: map<string, Checksum>, origin: string)
    requires s.stored.Some?
    ensures var after := Activated(s, sums, origin);
      && (forall u :: u in s.temp ==> u in after.content && after.content[u] == s.temp[u])
      && (forall u :: u in after.content ==> u in s.content || u in s.temp)
      && after.temp == map[] && after.stored == Some(sums)
  {
  }

  /**
   * The batch install puts into the temporary cache holds only requests whose
   * stored key is a manifest key, when the shell files are manifest keys.
   */
  lemma ShellBatchIsManifest(origin: string, core: seq<string>, sums: map<string, Checksum>, net: Url -> FetchResult)
    requires forall k :: k in core ==> k in sums && ValidKey(k)
    requires FetchAll(ResolveAll(origin, core), net).Ok?
    ensures forall u :: u in FetchAll(ResolveAll(origin, core), net).value ==> StoredKey(u, origin) in sums
  {
    var urls := ResolveAll(origin, core);
    forall u | u in FetchAll(urls, net).value ensures StoredKey(u, origin) in sums {
      var i :| 0 <= i < |urls| && urls[i] == u;
      StoredKeyOfResolve(origin, core[i]);
    }
  }

  /**
   * For the generated constants: the shell batch of `CORE` satisfies the
   * requirement of ActivatedContentIsCurrent and ReactivationIsNoop for any
   * valid manifest listing the generated `RESOURCES` keys.
   */
  lemma InstalledShellIsCurrent(origin: string, m: Manifest, net: Url -> FetchResult)
    requires m.Valid() && m.order == RESOURCE_KEYS
    requires FetchAll(ResolveAll(origin, CORE), net).Ok?
    ensures forall u :: u in FetchAll(ResolveAll(origin, CORE), net).value ==> StoredKey(u, origin) in m.sums
  {
    CoreKeysAreResources();
    CoreKeysAreValid();
    ShellBatchIsManifest(origin, CORE, m.sums, net);
  }

  /**
   * After a successful activation whose temporary entries are manifest
   * resources, every content entry is a manifest resource that either came
   * from the temporary cache or was already cached with the checksum the
   * manifest still has.
   */
  lemma ActivatedContentIsCurrent(s: CacheState, sums: map<string, Checksum>, origin: string)
    requires forall u :: u in s.temp ==> StoredKey(u, origin) in sums
    ensures var after := Activated(s, sums, origin).content;
      forall u :: u in after ==>
        && StoredKey(u, origin) in sums
        && (u in s.temp || (s.stored.Some? && u in s.content && after[u] == s.content[u]
                             && StoredKey(u, origin) in s.stored.value
                             && s.stored.value[StoredKey(u, origin)] == sums[StoredKey(u, origin)]))
  {
    var after := Activated(s, sums, origin).content;
    forall u | u in after
      ensures StoredKey(u, origin) in sums
      ensures u in s.temp || (s.stored.Some? && u in s.content && after[u] == s.content[u]
                              && StoredKey(u, origin) in s.stored.value
                              && s.stored.value[StoredKey(u, origin)] == sums[StoredKey(u, origin)])
    {
      if u !in s.temp {
        assert s.stored.Some?;
        assert u in Survivors(s.content, sums, s.stored.value, origin);
      }
    }
  }

  /**
   * Activating again after a successful activation, with nothing new in the
   * temporary cache, changes nothing: every entry is current with respect to
   * the manifest just stored.
   */
  lemma ReactivationIsNoop(s: CacheState, sums: map<string, Checksum>, origin: string)
    requires forall u :: u in s.temp ==> StoredKey(u, origin) in sums
    ensures var once := Activated(s, sums, origin);
      Activated(once, sums, origin) == once
  {
    var once := Activated(s, sums, origin);
    ActivatedContentIsCurrent(s, sums, origin);
    var survivors := Survivors(once.content, sums, sums, origin);
    assert survivors == once.content;
    assert survivors + map[] == survivors;
  }

  /**
   * A content entry cached from a versioned request (`key?v=...`) is evicted
   * by every upgrade, even when the checksum of `key` is unchanged: the
   * stored-key derivation keeps the query, and no manifest key contains one.
   */
  lemma VersionedEntryEvicted(sums: map<string, Checksum>, previous: map<string, Checksum>, origin: string,
                              key: string, version: string)
    requires forall k :: k in sums ==> !Contains(k, VERSION_QUERY)
    ensures Evicted(sums, previous, origin, origin + "/" + key + VERSION_QUERY + version)
  {
    var url := origin + "/" + key + VERSION_QUERY + version;
    var derived := key + VERSION_QUERY + version;
    assert url[|origin| + 1..] == derived;
    assert StoredKey(url, origin) == derived;
    assert OccursAt(derived, VERSION_QUERY, |key|) by {
      assert derived[|key|..|key| + 3] == VERSION_QUERY;
    }
  }
}
