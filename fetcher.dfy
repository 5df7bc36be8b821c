/**
 The fetcher, `makeRequest`: one upstream, one client request, a budget of
 retries. The network is an oracle: for each attempt, the outcome of the round
 trip, the clock reading `Date.now()` gives when a reply is cached, and the
 `Math.random` draw that sets the wait before the next attempt.
 */
module Fetcher {
  import opened Types
  import opened Cache

  /** The retry budget a fetch starts with. */
  const DEFAULT_RETRIES: nat := 5

  /** Waits between attempts are drawn from [0, 3000) milliseconds. */
  const MAX_BACKOFF_MS: real := 3000.0

  /** The request sent upstream: the client's method, the resolved URL, the rewritten headers. */
  datatype RequestOptions = RequestOptions(httpMethod: string, url: Url, headers: Headers)

  /**
   The outbound request: method forwarded, the resolved target URL, and the
   client's headers with `host` set to the target's host and nothing else changed.
   */
  function BuildOptions(req: Request, fullUrl: Url, host: string): (o: RequestOptions)
    ensures o.httpMethod == req.httpMethod && o.url == fullUrl
    ensures o.headers.Keys == req.headers.Keys + {"host"}
    ensures o.headers["host"] == host
    ensures forall h :: h in req.headers && h != "host" ==> o.headers[h] == req.headers[h]
    ensures o.headers - {"host"} == req.headers - {"host"}
  {
    RequestOptions(req.httpMethod, fullUrl, req.headers["host" := host])
  }

  /**
   One attempt: a reply below 400 is the response; a reply of 400 or more
   fails with the URL, status and body; a transport failure fails as such.
   */
  function Attempt(outcome: Outcome, fullUrl: Url): (r: Result<Response, FetchError>)
    ensures r.Success? <==> outcome.Replied? && outcome.response.statusCode < 400
    ensures r.Success? ==> r.value == outcome.response
    ensures outcome.Replied? && r.Failure? ==>
              r.error == StatusError(fullUrl, outcome.response.statusCode, outcome.response.body)
    ensures outcome.TransportFailed? ==> r == Failure(NetworkError(outcome.message))
  {
    match outcome
    case TransportFailed(message) => Failure(NetworkError(message))
    case Replied(response) =>
      if response.statusCode < 400 then Success(response)
      else Failure(StatusError(fullUrl, response.statusCode, response.body))
  }

  /** `3000 * Math.random()`: the wait before a retry, for a draw `r` in [0, 1). */
  function Backoff(r: real): (ms: real)
    requires 0.0 <= r < 1.0
    ensures 0.0 <= ms < MAX_BACKOFF_MS
  {
    3000.0 * r
  }

  /** What the network does on attempt `k`: `outcomes[k]`, `clock[k]` and, before retry `k + 1`, `jitter[k]`. */
  datatype FetchOracle = FetchOracle(outcomes: seq<Outcome>, clock: seq<int>, jitter: seq<real>)

  /** The oracle covers every attempt a budget of `retries` allows, and its draws lie in [0, 1). */
  predicate ValidOracle(o: FetchOracle, retries: nat)
  {
    |o.outcomes| > retries && |o.clock| > retries && |o.jitter| >= retries &&
    forall k :: 0 <= k < |o.jitter| ==> 0.0 <= o.jitter[k] < 1.0
  }

  /**
   How a fetch ends: its result, the number of attempts (counted from the first
   attempt of the fetch), the waits between them, and the entry it wrote to the cache.
   */
  datatype FetchRun = FetchRun(result: Result<Response, FetchError>, attempts: nat, delays: seq<real>, stored: Option<Entry>)

  /**
   `makeRequest` entered for attempt `k` with `left` retries remaining: the
   attempt's classification decides; a success or an exhausted budget ends the
   fetch, any other failure waits and recurses with one retry fewer.
   */
  function FetchFrom(o: FetchOracle, fullUrl: Url, k: nat, left: nat): (run: FetchRun)
    requires ValidOracle(o, k + left)
    ensures k < run.attempts <= k + left + 1
    decreases left
  {
    var result := Attempt(o.outcomes[k], fullUrl);
    if result.Success? || left == 0 then
      var stored := if result.Success? && result.value.statusCode == 200 then Some(Entry(result.value, o.clock[k])) else None;
      FetchRun(result, k + 1, [], stored)
    else
      var rest := FetchFrom(o, fullUrl, k + 1, left - 1);
      rest.(delays := [Backoff(o.jitter[k])] + rest.delays)
  }

  /**
   A fetch from attempt `k` ends with the classification of its last attempt,
   after only failures; it fails only once the budget is spent; it waits
   `Backoff` of the next draw before each retry; and it caches the response of
   its last attempt, stamped with that attempt's clock reading, exactly when
   that response is a 200.
   */
  lemma {:induction false} FetchFromFacts(o: FetchOracle, fullUrl: Url, k: nat, left: nat)
    requires ValidOracle(o, k + left)
    ensures var run := FetchFrom(o, fullUrl, k, left);
            && run.result == Attempt(o.outcomes[run.attempts - 1], fullUrl)
            && (forall a :: k <= a < run.attempts - 1 ==> Attempt(o.outcomes[a], fullUrl).Failure?)
            && (run.result.Failure? ==> run.attempts == k + left + 1)
            && |run.delays| == run.attempts - 1 - k
            && (forall d :: 0 <= d < |run.delays| ==> run.delays[d] == Backoff(o.jitter[k + d]))
            && (run.stored.Some? <==> run.result.Success? && run.result.value.statusCode == 200)
            && (run.stored.Some? ==> run.stored.value == Entry(run.result.value, o.clock[run.attempts - 1]))
    decreases left
  {
    if Attempt(o.outcomes[k], fullUrl).Failure? && left > 0 {
      FetchFromFacts(o, fullUrl, k + 1, left - 1);
    }
  }

  /**
   `makeRequest(upstreamUrl, clientReq, retries)` from its first attempt: at
   least one attempt, at most one per retry plus the first.
   */
  function Fetch(o: FetchOracle, fullUrl: Url, retries: nat): (run: FetchRun)
    requires ValidOracle(o, retries)
    ensures 1 <= run.attempts <= retries + 1
  {
    FetchFrom(o, fullUrl, 0, retries)
  }

  /** A run writes the cache exactly when it got a 200, and what it writes is that response. */
  predicate StoresIts200(run: FetchRun)
  {
    && (run.stored.Some? <==> run.result.Success? && run.result.value.statusCode == 200)
    && (run.stored.Some? ==> run.stored.value.response == run.result.value)
  }

  /** Every fetch caches its 200 and nothing else. */
  lemma FetchStoresIts200(o: FetchOracle, fullUrl: Url, retries: nat)
    requires ValidOracle(o, retries)
    ensures StoresIts200(Fetch(o, fullUrl, retries))
  {
    FetchFromFacts(o, fullUrl, 0, retries);
  }

  /**
   Against an upstream whose every attempt fails, a fetch makes exactly
   `retries + 1` attempts (six for the default budget of five), waits
   `retries` times, rethrows the last error and caches nothing.
   */
  lemma AlwaysFailingUpstream(o: FetchOracle, fullUrl: Url, retries: nat)
    requires ValidOracle(o, retries)
    requires forall a :: 0 <= a <= retries ==> Attempt(o.outcomes[a], fullUrl).Failure?
    ensures Fetch(o, fullUrl, retries).attempts == retries + 1
    ensures Fetch(o, fullUrl, retries).result == Attempt(o.outcomes[retries], fullUrl)
    ensures |Fetch(o, fullUrl, retries).delays| == retries
    ensures Fetch(o, fullUrl, retries).stored == None
  {
    FetchFromFacts(o, fullUrl, 0, retries);
  }

  /** The first success, at attempt `k` within the budget, ends the fetch with that response. */
  lemma FirstSuccessStops(o: FetchOracle, fullUrl: Url, retries: nat, k: nat)
    requires ValidOracle(o, retries)
    requires k <= retries
    requires Attempt(o.outcomes[k], fullUrl).Success?
    requires forall a :: 0 <= a < k ==> Attempt(o.outcomes[a], fullUrl).Failure?
    ensures Fetch(o, fullUrl, retries).attempts == k + 1
    ensures Fetch(o, fullUrl, retries).result == Success(o.outcomes[k].response)
  {
    FetchFromFacts(o, fullUrl, 0, retries);
  }

  /**
   `makeRequest(upstreamUrl, clientReq, retries)`, its recursion written as a
   loop. `resolve` stands for `url.resolve(upstreamUrl, url.parse(clientReq.url).path)`
   and `hostOf` for `url.parse(fullUrl).host`. A reply of exactly 200 is written
   to the cache under the request's key, stamped with that attempt's clock reading.
   */
  method MakeRequest(cache: ResponseCache, upstreamUrl: Url, req: Request, retries: nat, o: FetchOracle,
                     resolve: (Url, string) -> Url, hostOf: Url -> string)
    returns (r: Result<Response, FetchError>, attempts: nat, delays: seq<real>, options: RequestOptions)
    requires ValidOracle(o, retries)
    modifies cache
    ensures var fullUrl := resolve(upstreamUrl, req.url);
            var run := Fetch(o, fullUrl, retries);
            && r == run.result && attempts == run.attempts && delays == run.delays
            && options == BuildOptions(req, fullUrl, hostOf(fullUrl))
            && cache.entries == (if run.stored.Some? then old(cache.entries)[CacheKey(req) := run.stored.value]
                                 else old(cache.entries))
  {
    var key := CacheKey(req);
    var fullUrl := resolve(upstreamUrl, req.url);
    options := BuildOptions(req, fullUrl, hostOf(fullUrl));
    ghost var run := Fetch(o, fullUrl, retries);
    var left := retries;
    attempts, delays := 0, [];
    while true
      invariant attempts + left == retries
      invariant var rest := FetchFrom(o, fullUrl, attempts, left);
                && run.result == rest.result && run.attempts == rest.attempts
                && run.stored == rest.stored && run.delays == delays + rest.delays
      invariant cache.entries == old(cache.entries)
      decreases left
    {
      var result := Attempt(o.outcomes[attempts], fullUrl);
      if result.Success? {
        if result.value.statusCode == 200 {
          cache.Store(key, result.value, o.clock[attempts]);
        }
        r, attempts := result, attempts + 1;
        return;
      }
      if left == 0 {
        r, attempts := result, attempts + 1;
        return;
      }
      delays := delays + [Backoff(o.jitter[attempts])];
      attempts, left := attempts + 1, left - 1;
    }
  }
}
