/**
 * The offline downloader: the manifest keys not yet in the content cache,
 * in manifest order, which it then asks `addAll` to download.
 */
module Offline {
  import opened Wrappers
  import opened Keys
  import opened Http
  import opened Resources
  import opened Fetching

  /**
   * The keys the downloader derives from the content cache's requests: the
   * key of every cached request and nothing else, so every manifest key
   * whose request is cached; an empty cache has none.
   */
  function CachedKeys(cache: Cache, origin: string): (present: set<string>)
    ensures forall u :: u in cache ==> StoredKey(u, origin) in present
    ensures forall k :: k in present ==> exists u :: u in cache && StoredKey(u, origin) == k
    ensures forall k :: ValidKey(k) && Resolve(origin, k) in cache ==> k in present
    ensures cache == map[] ==> present == {}
  {
    forall k | ValidKey(k) && Resolve(origin, k) in cache
      ensures k in set u | u in cache :: StoredKey(u, origin)
    {
      StoredKeyOfResolve(origin, k);
    }
    set u | u in cache :: StoredKey(u, origin)
  }

  /** The keys of `order` that are not in `present`, kept in the order of `order`. */
  function Missing(order: seq<string>, present: set<string>): seq<string>
    decreases |order|
  {
    if order == [] then []
    else
      var last := order[|order| - 1];
      Missing(order[..|order| - 1], present) + (if last in present then [] else [last])
  }

  /** A key is listed exactly when it is in the manifest and not present. */
  lemma {:induction false} MissingMembers(order: seq<string>, present: set<string>)
    decreases |order|
    ensures forall k :: k in Missing(order, present) <==> k in order && k !in present
  {
    if order != [] {
      var init := order[..|order| - 1];
      assert order == init + [order[|order| - 1]];
      MissingMembers(init, present);
    }
  }

  /** With distinct manifest keys, no key is listed twice. */
  lemma {:induction false} MissingDistinct(order: seq<string>, present: set<string>)
    requires Distinct(order)
    decreases |order|
    ensures Distinct(Missing(order, present))
  {
    if order != [] {
      var init := order[..|order| - 1];
      var last := order[|order| - 1];
      forall i, j | 0 <= i < j < |init| ensures init[i] != init[j] {
        assert init[i] == order[i] && init[j] == order[j];
      }
      forall i | 0 <= i < |init| ensures init[i] != last {
        assert init[i] == order[i];
      }
      MissingDistinct(init, present);
      MissingMembers(init, present);
      var listed := Missing(init, present);
      if last in present {
        assert Missing(order, present) == listed + [];
        assert listed + [] == listed;
      } else {
        var grown := listed + [last];
        assert Missing(order, present) == grown;
        forall i, j | 0 <= i < j < |grown| ensures grown[i] != grown[j] {
          if j == |listed| {
            assert grown[i] == listed[i] && listed[i] in listed;
          } else {
            assert grown[i] == listed[i] && grown[j] == listed[j];
          }
        }
      }
    }
  }

  /** Appending one key appends it to the missing keys exactly when it is not present. */
  lemma MissingSnoc(s: seq<string>, x: string, present: set<string>)
    ensures Missing(s + [x], present) == Missing(s, present) + (if x in present then [] else [x])
  {
    assert (s + [x])[..|s|] == s;
  }

  /** Missing keeps the manifest's order: it distributes over concatenation. */
  lemma {:induction false} MissingConcat(a: seq<string>, b: seq<string>, present: set<string>)
    ensures Missing(a + b, present) == Missing(a, present) + Missing(b, present)
    decreases |b|
  {
    if b == [] {
      assert a + b == a;
    } else {
      var init := b[..|b| - 1];
      var last := b[|b| - 1];
      var tail := if last in present then [] else [last];
      calc {
        Missing(a + b, present);
      == { assert a + b == (a + init) + [last]; MissingSnoc(a + init, last, present); }
        Missing(a + init, present) + tail;
      == { MissingConcat(a, init, present); }
        Missing(a, present) + Missing(init, present) + tail;
      == { assert b == init + [last]; MissingSnoc(init, last, present); }
        Missing(a, present) + Missing(b, present);
      }
    }
  }

  /** Distinct manifest keys resolve to distinct requests, so `addAll` never sees a duplicate. */
  lemma RequestsDistinct(origin: string, keys: seq<string>)
    requires Distinct(keys) && forall k :: k in keys ==> ValidKey(k)
    ensures Distinct(ResolveAll(origin, keys))
  {
    var urls := ResolveAll(origin, keys);
    forall i, j | 0 <= i < j < |urls| ensures urls[i] != urls[j] {
      ResolveInjective(origin, keys[i], keys[j]);
    }
  }

  /**
   * The download succeeds exactly when every missing resource fetches with
   * an ok response.
   */
  lemma DownloadSucceedsIff(m: Manifest, cache: Cache, origin: string, net: Url -> FetchResult)
    requires m.Valid()
    ensures var missing := Missing(m.order, CachedKeys(cache, origin));
      (FetchAll(ResolveAll(origin, missing), net).Ok? <==>
       forall k :: k in missing ==> FetchesOk(net, Resolve(origin, k)))
  {
    var missing := Missing(m.order, CachedKeys(cache, origin));
    MissingMembers(m.order, CachedKeys(cache, origin));
    MissingDistinct(m.order, CachedKeys(cache, origin));
    RequestsDistinct(origin, missing);
    AllResolvedOk(origin, missing, net);
  }

  /** Every resolved request fetches ok exactly when the request of every listed key does. */
  lemma AllResolvedOk(origin: string, keys: seq<string>, net: Url -> FetchResult)
    ensures (forall i :: 0 <= i < |keys| ==> FetchesOk(net, ResolveAll(origin, keys)[i])) ==>
            (forall k :: k in keys ==> FetchesOk(net, Resolve(origin, k)))
    ensures (forall k :: k in keys ==> FetchesOk(net, Resolve(origin, k))) ==>
            (forall i :: 0 <= i < |keys| ==> FetchesOk(net, ResolveAll(origin, keys)[i]))
  {
    var urls := ResolveAll(origin, keys);
    forall k | k in keys && (forall i :: 0 <= i < |keys| ==> FetchesOk(net, urls[i]))
      ensures FetchesOk(net, Resolve(origin, k))
    {
      var i :| 0 <= i < |keys| && keys[i] == k;
      assert urls[i] == Resolve(origin, k);
    }
    forall i | 0 <= i < |keys| && (forall k :: k in keys ==> FetchesOk(net, Resolve(origin, k)))
      ensures FetchesOk(net, urls[i])
    {
      assert keys[i] in keys && urls[i] == Resolve(origin, keys[i]);
    }
  }

  /**
   * After a successful download every manifest resource is cached: it was
   * cached already or was among the downloaded requests.
   */
  lemma DownloadCompletes(m: Manifest, cache: Cache, origin: string, net: Url -> FetchResult)
    requires m.Valid()
    requires FetchAll(ResolveAll(origin, Missing(m.order, CachedKeys(cache, origin))), net).Ok?
    ensures var batch := FetchAll(ResolveAll(origin, Missing(m.order, CachedKeys(cache, origin))), net).value;
      forall k :: k in m.sums ==> k in CachedKeys(cache + batch, origin)
  {
    var present := CachedKeys(cache, origin);
    var missing := Missing(m.order, present);
    MissingMembers(m.order, present);
    var urls := ResolveAll(origin, missing);
    var batch := FetchAll(urls, net).value;
    forall k | k in m.sums ensures k in CachedKeys(cache + batch, origin) {
      if k in present {
        var u :| u in cache && StoredKey(u, origin) == k;
        assert u in cache + batch;
      } else {
        assert k in missing;
        var i :| 0 <= i < |missing| && missing[i] == k;
        assert urls[i] in batch;
        StoredKeyOfResolve(origin, k);
        assert urls[i] in cache + batch;
      }
    }
  }
}
