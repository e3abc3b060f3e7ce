/**
 * The host's networking and the all-or-nothing `Cache.addAll`, seen from the
 * worker: a request, an opaque response with its status, and a network
 * oracle that either yields a response or raises an error.
 */
module Http {
  import opened Wrappers
  import opened Keys

  datatype Request = Request(verb: string, url: Url)  // `verb` is `request.method`

  /** A response; the body is opaque to the worker. */
  datatype Response = Response(status: int, body: seq<int>) {
    /** `response.ok`: the status is in the range 200-299. */
    predicate Ok() {
      200 <= status <= 299
    }
  }

  datatype Error =
    | NetworkError(reason: string)  // a rejected `fetch`
    | TypeError                     // `addAll` saw a response that was not ok
    | InvalidStateError             // `addAll` was given the same request twice

  /** What one `fetch` of a request settles to. */
  datatype FetchResult = Fetched(response: Response) | Failed(error: Error)

  /** `url` fetches to a response whose `ok` flag is set. */
  predicate FetchesOk(net: Url -> FetchResult, url: Url) {
    net(url).Fetched? && net(url).response.Ok()
  }

  /**
   * `cache.addAll(urls)` before anything is stored: every request is fetched,
   * and the batch is rejected if any fetch fails, any response is not ok, or
   * a request occurs twice; otherwise it is the map from each request to its
   * response. When several requests fail, the error of the first is reported.
   */
  function FetchAll(urls: seq<Url>, net: Url -> FetchResult): (r: Result<map<Url, Response>, Error>)
    ensures r.Ok? <==> Distinct(urls) && forall i :: 0 <= i < |urls| ==> FetchesOk(net, urls[i])
    ensures r.Ok? ==> r.value.Keys == set u | u in urls
    ensures r.Ok? ==> forall i :: 0 <= i < |urls| ==> r.value[urls[i]] == net(urls[i]).response
  {
    if urls == [] then Ok(map[])
    else
      var rest := FetchAll(urls[1..], net);
      DistinctCons(urls);
      assert forall u :: u in urls <==> u == urls[0] || u in urls[1..];
      if net(urls[0]).Failed? then Err(net(urls[0]).error)
      else if !net(urls[0]).response.Ok() then Err(TypeError)
      else if rest.Err? then rest
      else if urls[0] in rest.value then Err(InvalidStateError)
      else
        assert forall i :: 1 <= i < |urls| ==> urls[i] == urls[1..][i - 1];
        Ok(rest.value[urls[0] := net(urls[0]).response])
  }

  /** A sequence is distinct iff its head is not in its tail and its tail is distinct. */
  lemma DistinctCons<T>(s: seq<T>)
    requires s != []
    ensures Distinct(s) <==> s[0] !in s[1..] && Distinct(s[1..])
  {
    if s[0] !in s[1..] && Distinct(s[1..]) {
      forall i, j | 0 <= i < j < |s| ensures s[i] != s[j] {
        if i == 0 {
          assert s[j] == s[1..][j - 1];
        } else {
          assert s[i] == s[1..][i - 1] && s[j] == s[1..][j - 1];
        }
      }
    }
    if Distinct(s) {
      forall i, j | 0 <= i < j < |s| - 1 ensures s[1..][i] != s[1..][j] {
        assert s[1..][i] == s[i + 1] && s[1..][j] == s[j + 1];
      }
      forall j | 0 <= j < |s| - 1 ensures s[1..][j] != s[0] {
        assert s[1..][j] == s[j + 1];
      }
    }
  }
}
