/**
 * Resource keys: how the worker turns a request URL into a key of the
 * resource manifest, and how a manifest key becomes a request URL again.
 * The string operations are the JavaScript ones the worker uses
 * (`substring`, `startsWith`, `indexOf`, `split(..)[0]`).
 */
module Keys {

  type Url = string

  /** The sentinel key of the site root. */
  const ROOT := "/"

  /** The cache-busting query marker that the fetch handler strips. */
  const VERSION_QUERY := "?v="

  /** JavaScript `s.substring(from)` for a non-negative start: a start past the end gives "". */
  function Substring(s: string, from: nat): (r: string)
    ensures from <= |s| ==> s == s[..from] + r
    ensures from >= |s| ==> r == ""
  {
    if from <= |s| then s[from..] else ""
  }

  /** JavaScript `s.startsWith(prefix)`. */
  predicate StartsWith(s: string, prefix: string) {
    |prefix| <= |s| && s[..|prefix|] == prefix
  }

  /** `s.startsWith(prefix)` holds exactly when `s` is `prefix` followed by some rest. */
  lemma StartsWithSplits(s: string, prefix: string)
    ensures StartsWith(s, prefix) <==> exists rest :: s == prefix + rest
  {
    if StartsWith(s, prefix) {
      assert s == prefix + s[|prefix|..];
    }
    forall rest | s == prefix + rest ensures StartsWith(s, prefix) {
      assert s[..|prefix|] == prefix;
    }
  }

  /** `pat` occurs in `s` at position `i`. */
  predicate OccursAt(s: string, pat: string, i: nat) {
    i + |pat| <= |s| && s[i..i + |pat|] == pat
  }

  predicate Contains(s: string, pat: string) {
    exists i: nat :: i <= |s| && OccursAt(s, pat, i)
  }

  /**
   * JavaScript `s.indexOf(pat, from)` for a non-empty `pat`: the first
   * occurrence at or after `from`, or -1. (For an empty `pat` past the end
   * JavaScript answers `|s|`; the worker only searches for `?v=`.)
   */
  function IndexOfFrom(s: string, pat: string, from: nat): (r: int)
    decreases |s| - from
    ensures r == -1 <==> forall i: nat :: from <= i ==> !OccursAt(s, pat, i)
    ensures r != -1 ==> from <= r && OccursAt(s, pat, r)
    ensures r != -1 ==> forall i: nat :: from <= i < r ==> !OccursAt(s, pat, i)
  {
    if from + |pat| > |s| then -1
    else if OccursAt(s, pat, from) then from
    else IndexOfFrom(s, pat, from + 1)
  }

  /** JavaScript `s.indexOf(pat)` for a non-empty `pat`. */
  function IndexOf(s: string, pat: string): (r: int)
    ensures r == -1 <==> !Contains(s, pat)
    ensures r != -1 ==> 0 <= r && OccursAt(s, pat, r) && forall i: nat :: i < r ==> !OccursAt(s, pat, i)
  {
    IndexOfFrom(s, pat, 0)
  }

  /** JavaScript `s.split(sep)[0]` for a non-empty separator: everything before the first `sep`. */
  function BeforeFirst(s: string, sep: string): (r: string)
    requires sep != ""
    ensures StartsWith(s, r)
    ensures !Contains(r, sep)
    ensures r == s || OccursAt(s, sep, |r|)
    ensures r != s ==> forall i: nat :: i < |r| ==> !OccursAt(s, sep, i)
  {
    var i := IndexOf(s, sep);
    if i == -1 then s
    else
      var r := s[..i];
      assert forall j: nat :: OccursAt(r, sep, j) ==> OccursAt(s, sep, j) by {
        forall j: nat | OccursAt(r, sep, j) ensures OccursAt(s, sep, j) {
          assert r[j..j + |sep|] == s[j..j + |sep|];
        }
      }
      r
  }

  /**
   * The key the fetch handler looks a GET request up under: the URL minus
   * the origin and one separator, cut before the first `?v=`; the bare
   * origin, an `origin/#...` URL and an empty path all become `/`.
   */
  function FetchKey(url: Url, origin: string): (key: string)
    ensures key != ""
    ensures !Contains(key, VERSION_QUERY)
    ensures (|| url == origin || StartsWith(url, origin + "/#") || Substring(url, |origin| + 1) == ""
             || StartsWith(Substring(url, |origin| + 1), VERSION_QUERY))
            ==> key == ROOT
    ensures var tail := Substring(url, |origin| + 1);
      url != origin && !StartsWith(url, origin + "/#") && tail != "" && !StartsWith(tail, VERSION_QUERY) ==>
        && StartsWith(tail, key)
        && (key == tail || OccursAt(tail, VERSION_QUERY, |key|))
        && (key != tail ==> forall i: nat :: i < |key| ==> !OccursAt(tail, VERSION_QUERY, i))
  {
    var tail := Substring(url, |origin| + 1);
    var path := if IndexOf(tail, VERSION_QUERY) != -1 then BeforeFirst(tail, VERSION_QUERY) else tail;
    if url == origin || StartsWith(url, origin + "/#") || path == "" then
      assert !OccursAt(ROOT, VERSION_QUERY, 0);
      ROOT
    else path
  }

  /**
   * The key the activation and offline-download code derive from a cached
   * request: the URL minus the origin and one separator; an empty result is `/`.
   * Unlike FetchKey, no `?v=` suffix is cut and no `#` fragment is recognised.
   */
  function StoredKey(url: Url, origin: string): (key: string)
    ensures key != ""
    ensures StartsWith(url, origin + "/") && |url| > |origin| + 1 ==> url == origin + "/" + key
  {
    var tail := Substring(url, |origin| + 1);
    if tail == "" then ROOT
    else
      assert url[..|origin| + 1] == origin + "/" ==> url == origin + "/" + tail;
      tail
  }

  /**
   * A character URL parsing keeps as it is in a path: a letter, a digit,
   * `_`, `-`, `.` or `/`, the alphabet the generator writes keys in.
   */
  predicate PathChar(c: char) {
    ('a' <= c <= 'z') || ('A' <= c <= 'Z') || ('0' <= c <= '9') || c == '_' || c == '-' || c == '.' || c == '/'
  }

  /** The `.` at `i` starts a `.` or `..` path segment, which URL parsing removes. */
  predicate DotSegmentAt(k: string, i: nat)
    requires i < |k|
  {
    && k[i] == '.'
    && (i == 0 || k[i - 1] == '/')
    && (i + 1 == |k| || k[i + 1] == '/' || (k[i + 1] == '.' && (i + 2 == |k| || k[i + 2] == '/')))
  }

  /**
   * A manifest key as the generator writes them: the root sentinel, or a
   * non-empty path relative to the site root, written in characters URL
   * parsing leaves alone and with no `.` or `..` segment, so that
   * `new Request(k)` neither percent-encodes nor normalises it.
   */
  predicate ValidKey(k: string) {
    && (k == ROOT || (k != "" && k[0] != '/'))
    && forall i: nat :: i < |k| ==> PathChar(k[i]) && !DotSegmentAt(k, i)
  }

  /**
   * The absolute URL of the request `new Request(k)` made by a worker served
   * from the root of `origin`: an absolute path is appended to the origin, a
   * relative one to `origin + "/"`.
   */
  function Resolve(origin: string, k: string): Url {
    if k != "" && k[0] == '/' then origin + k else origin + "/" + k
  }

  /**
   * Every resolved request lies under `origin + "/"`, and cutting the origin
   * and one separator gives back the key without its leading `/`.
   */
  lemma ResolveUnderOrigin(origin: string, k: string)
    ensures StartsWith(Resolve(origin, k), origin + "/")
    ensures Substring(Resolve(origin, k), |origin| + 1) == if k != "" && k[0] == '/' then k[1..] else k
  {
    if k != "" && k[0] == '/' {
      assert origin + k == (origin + "/") + k[1..];
    }
    var url := Resolve(origin, k);
    assert url[..|origin| + 1] == origin + "/";
  }

  function ResolveAll(origin: string, keys: seq<string>): (urls: seq<Url>)
    ensures |urls| == |keys|
    ensures forall i :: 0 <= i < |keys| ==> urls[i] == Resolve(origin, keys[i])
  {
    if keys == [] then [] else [Resolve(origin, keys[0])] + ResolveAll(origin, keys[1..])
  }

  /** The stored-key derivation undoes resolution for every manifest key. */
  lemma StoredKeyOfResolve(origin: string, k: string)
    requires ValidKey(k)
    ensures StoredKey(Resolve(origin, k), origin) == k
  {
    var url := Resolve(origin, k);
    if k == ROOT {
      assert url == origin + "/";
    } else {
      assert url[|origin| + 1..] == k;
    }
  }

  /** Resolution is injective on manifest keys, so distinct keys give distinct requests. */
  lemma ResolveInjective(origin: string, k1: string, k2: string)
    requires ValidKey(k1) && ValidKey(k2) && k1 != k2
    ensures Resolve(origin, k1) != Resolve(origin, k2)
  {
    StoredKeyOfResolve(origin, k1);
    StoredKeyOfResolve(origin, k2);
  }

  /**
   * The fetch-key derivation undoes resolution for every manifest key that
   * holds no `?v=` and does not start with a `#` fragment.
   */
  lemma FetchKeyOfResolve(origin: string, k: string)
    requires ValidKey(k) && !Contains(k, VERSION_QUERY) && !StartsWith(k, "#")
    ensures FetchKey(Resolve(origin, k), origin) == k
  {
    var url := Resolve(origin, k);
    if k == ROOT {
      assert url == origin + "/";
      assert Substring(url, |origin| + 1) == "";
      assert !OccursAt("", VERSION_QUERY, 0);
    } else {
      assert url == origin + "/" + k;
      assert Substring(url, |origin| + 1) == k;
      assert url != origin;
      assert url[|origin| + 1] == k[0];
      assert k[0] != '#' by {
        assert |k| >= 1 && k[..1] == [k[0]];
      }
      assert (origin + "/#")[|origin| + 1] == '#';
      assert |url| >= |origin| + 2 ==> url[..|origin| + 2][|origin| + 1] == k[0];
    }
  }

  /**
   * Appending `?v=` and any version to a key-path changes neither the key
   * the fetch handler derives nor, therefore, how the request is routed.
   */
  lemma VersionedUrlSameKey(origin: string, path: string, version: string)
    requires !Contains(path, VERSION_QUERY)
    ensures FetchKey(origin + "/" + path + VERSION_QUERY + version, origin)
         == FetchKey(origin + "/" + path, origin)
  {
    var bare := origin + "/" + path;
    var versioned := bare + VERSION_QUERY + version;
    var tail := path + VERSION_QUERY + version;
    assert versioned[|origin| + 1..] == tail;
    assert Substring(bare, |origin| + 1) == path;
    assert OccursAt(tail, VERSION_QUERY, |path|) by {
      assert tail[|path|..|path| + 3] == VERSION_QUERY;
    }
    forall i: nat | i < |path| ensures !OccursAt(tail, VERSION_QUERY, i) {
      if i + 3 <= |path| {
        assert tail[i..i + 3] == path[i..i + 3];
        assert !OccursAt(path, VERSION_QUERY, i);
      } else if i + 2 == |path| {
        assert tail[i..i + 3][2] == tail[i + 2] == '?' != VERSION_QUERY[2];
      } else {
        assert tail[i..i + 3][1] == tail[i + 1] == '?' != VERSION_QUERY[1];
      }
    }
    assert IndexOf(tail, VERSION_QUERY) == |path|;
    assert BeforeFirst(tail, VERSION_QUERY) == path;
    assert IndexOf(path, VERSION_QUERY) == -1;
    assert StartsWith(versioned, origin + "/#") <==> StartsWith(bare, origin + "/#") by {
      if path == "" {
        assert versioned[..|origin| + 2][|origin| + 1] == '?';
        assert (origin + "/#")[|origin| + 1] == '#';
      } else {
        assert versioned[..|origin| + 2] == bare[..|origin| + 2];
      }
    }
  }
}
