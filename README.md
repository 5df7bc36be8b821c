# A caching, racing reverse proxy, modelled in Dafny

The proxy answers each client request from a process-wide response cache when
it can. The cache is keyed by `method:url`, and its entries stay valid for 24
hours.

On a miss, the proxy first deletes the stale entry. It then picks the
upstreams to ask: all of them if there are at most five, otherwise five from
a shuffled copy of the list. It sends the request to every picked upstream at
once. Each upstream fetch:

- rewrites the `host` header;
- counts any status below 400 as a success and 400 or more as an error;
- caches a reply of exactly 200;
- retries a failed attempt up to five times, after a random wait of under three seconds.

The first success is served (`Promise.any`). If every fetch fails, the race
fails with every racer's error, in order; the client then gets a 500 page,
which belongs to the HTTP side and is left out.

The model has five modules:

- `Types` holds the request, the response, a cache entry, the outcome of one round trip, and the fetch errors.
- `Cache` holds the cache key, the validity rule and the lookup (`LookupEntry`). It also holds the cache itself, as the class `ResponseCache` whose map field `Lookup` and `Store` update in place.
- `Selector` holds the in-place Fisher–Yates shuffle `Shuffle` over an `array`, proved against the function `Shuffled`. It also holds the selection of at most five upstreams.
- `Fetcher` holds the classification of one attempt and the outbound request options. It also holds the retry recursion `FetchFrom`, and `MakeRequest`, which is that recursion written as a loop and proved equal to it. Each upstream's network is an oracle that gives, for each attempt, the outcome, the clock reading and the random draw for the wait.
- `Dispatcher` holds `Promise.any` and the race. The race runs the racers one after another in selection order. Each racer writes the cache itself on a 200, so a losing racer can write too. `Dispatcher` also holds `GetResponse`.

`Math.random` enters in two ways. The shuffle gets a sequence of swap indices,
one per turn of its loop, each at most the position it swaps. `PicksFromDraws`
shows that draws in [0, 1) always give such indices. The waits between
retries are `Backoff` of a draw from the oracle.

## Model

| member | source | states |
|---|---|---|
| Cache.ColonIndex | index.js:17-19 | the result is the position of the first colon of a string, or None exactly when there is no colon |
| Cache.SplitKey | index.js:17-19 | splitting at the first colon gives a colon-free method part that, joined back with ":", is the key; None only for a key with no colon |
| Cache.FirstColonAt | index.js:17-19 | a colon with none before it is the one `ColonIndex` finds |
| Cache.CacheKey | index.js:17-19 | the key is the method, a colon and the URL: splitting it at its first colon gives back exactly the method and URL of a request whose method has no colon |
| Cache.KeyInjective | index.js:17-19 | two such requests share a key only if their methods and URLs are equal |
| Cache.KeySeparatesMethods | index.js:17-19 | requests for the same URL with different methods get different keys |
| Cache.KeyIgnoresHeaders | index.js:17-19 | requests with equal method and URL share a key whatever their headers |
| Cache.IsCacheValid | index.js:21-24 | an entry is valid at and before the time it was stored, and invalid from 86 400 000 ms after it on |
| Cache.ValidityBoundary | index.js:21-24 | the validity window is 86 400 000 ms; an entry is valid when fresh and at 24 h minus 1 ms, and invalid at 24 h and at 24 h plus 1 ms |
| Cache.ExpiryIsPermanent | index.js:21-24 | an expired entry stays expired at every later time |
| Cache.LookupEntry | index.js:108-117 | a hit (present and valid) returns the stored response and leaves the map unchanged; otherwise nothing is returned and the key is gone; every other key keeps its entry |
| Cache.LookupIdempotent | index.js:108-117 | a second lookup at the same time gives the same answer and map as the first |
| Cache.StoreThenLookup | index.js:67-75 | a response stored at t is returned unchanged by a lookup at any time in [t, t + 24 h) |
| Cache.StoreThenExpire | index.js:108-117 | a lookup 24 h or more after a store misses and leaves the map as it was before the store, without the key |
| Cache.ResponseCache.constructor | index.js:11 | the cache starts empty |
| Cache.ResponseCache.Lookup | index.js:109-117 | the returned hit and the new map are exactly those of `LookupEntry` on the old map |
| Cache.ResponseCache.Store | index.js:70-73 | the new map is the old map with the key bound to the response stamped with the given time |
| Selector.PickFromDraw | index.js:32 | `floor(r * (i + 1))` for a draw r in [0, 1) never exceeds i |
| Selector.PicksFromDraws | index.js:31-32 | draws in [0, 1) give a valid swap index for every turn of the shuffle loop |
| Selector.Swap | index.js:33 | exchanging two cells keeps the length and every other cell |
| Selector.SwapKeepsDistinct | index.js:33 | a swap keeps a duplicate-free sequence duplicate-free |
| Selector.ShuffleDown | index.js:31-34 | the loop from position i down to 1, each turn swapping with its pick, keeps the length |
| Selector.ShuffleDownPermutes | index.js:31-34 | the shuffle loop from any position keeps the multiset of elements |
| Selector.ShuffleDownKeepsDistinct | index.js:31-34 | the shuffle loop keeps a duplicate-free sequence duplicate-free |
| Selector.Shuffled | index.js:30-36 | the shuffled sequence has the same length and multiset as the input, and stays duplicate-free |
| Selector.Shuffle | index.js:30-36 | the array afterwards holds `Shuffled` of its old contents, a permutation of them |
| Selector.Selection | index.js:96-101 | with at most five upstreams, the whole list in its order; otherwise exactly five, a sub-multiset of the list, each one configured, and none twice if the list has no duplicates |
| Selector.SelectUpstreams | index.js:96-101 | the method, which shuffles a fresh copy and may not modify the configured array, returns `Selection` of it |
| Fetcher.BuildOptions | index.js:46-52 | the method and resolved URL are forwarded; the headers are the client's plus `host`, set to the target host, and no other header changes |
| Fetcher.Attempt | index.js:59-80 | a reply below 400 is a success carrying that response; a reply of 400 or more is a failure with URL, status and body; a transport failure is a failure |
| Fetcher.Backoff | index.js:87 | the wait before a retry lies in [0, 3000) ms |
| Fetcher.FetchFrom | index.js:38-93 | a fetch from attempt k with `left` retries makes between 1 and left + 1 attempts |
| Fetcher.FetchFromFacts | index.js:67-91 | the result is the classification of the last attempt, every earlier attempt failed, a failure means the budget was used up, each wait is `Backoff` of the next draw, and the run caches the last attempt's response, stamped with its clock reading, exactly when its status is 200 |
| Fetcher.FetchStoresIts200 | index.js:67-75 | a fetch writes the cache exactly when its result is a 200, and it writes that response; 201-399 are returned without caching |
| Fetcher.Fetch | index.js:38-93 | `makeRequest` with a budget of `retries` makes at least one attempt and at most retries + 1 |
| Fetcher.AlwaysFailingUpstream | index.js:81-91 | against an upstream that always fails, a budget of `retries` makes exactly retries + 1 attempts, waits `retries` times, rethrows the last error and caches nothing |
| Fetcher.FirstSuccessStops | index.js:81-91 | the first success at attempt k ends the fetch after k + 1 attempts with that response |
| Fetcher.MakeRequest | index.js:38-93 | the loop returns the result, attempt count and waits of `Fetch`, builds `BuildOptions`, and changes the cache only by storing the run's 200 under the request's key |
| Dispatcher.AnyOf | index.js:104 | a settlement of `Promise.any` succeeds exactly when some racer succeeded, and then with one of the successful responses |
| Dispatcher.PromiseAny | index.js:104 | if some racer succeeded, the result is one of the successful responses; otherwise a failure listing every racer's error in order |
| Dispatcher.StoreAll | index.js:70-73 | the racers' writes, applied in order, never remove a key |
| Dispatcher.StoreAllFacts | index.js:67-75 | racers write only under the request's key; with no writer the map is unchanged; otherwise the entry is the one written by the last racer that wrote |
| Dispatcher.StoreAllAppend | index.js:70-73 | one more racer's write lands after all earlier ones |
| Dispatcher.Race | index.js:104 | one fetch per selected upstream, with the default budget of five retries: as many runs as racers |
| Dispatcher.RaceAppend | index.js:104 | racing one more upstream appends its fetch to the runs |
| Dispatcher.CachedIffSome200 | index.js:67-75 | racers that each cache exactly their 200 leave an entry under the key exactly when one got a 200, and the entry is one racer's 200 response |
| Dispatcher.RaceStoresIts200 | index.js:67-75 | every racer of a race caches exactly its 200 |
| Dispatcher.MissCachesIffSomeRacerGot200 | index.js:115-120 | after a miss, the cache has an entry under the key exactly when some racer got a 200, and that entry is a racer's 200 response |
| Dispatcher.FailedRaceCachesNothing | index.js:67-75 | when `Promise.any` rejects, no racer got a 200, so the race leaves the cache map exactly as it found it |
| Dispatcher.LosingRacerCanWriteCache | index.js:68-77 | a race can serve a 201 from one racer while the cache ends up holding another racer's 200 |
| Dispatcher.RunRacer | index.js:104 | racer i runs after racers 0 to i - 1: its fetch joins the runs and its write lands after theirs |
| Dispatcher.RunRacers | index.js:104 | the racers' results are those of `Race` on the selection, and the cache is the old one with their writes applied in order |
| Dispatcher.MakeConcurrentRequests | index.js:95-105 | the runs are `Race` over `Selection`, the result is `Promise.any` of their results, and the cache receives their writes |
| Dispatcher.GetResponse | index.js:108-121 | a hit returns the stored response, leaves the cache unchanged and runs no racer; a miss deletes the key, then races the selection, settles with `Promise.any` and applies the racers' writes |

## Left out

- The HTTP server, writing the reply back to the client and the 500 error page: these are I/O.
- Reading `config.json`: the upstream list is an input array.
- The `axios` round trip: an oracle supplies each attempt's outcome, either a reply with status, headers and body, or a transport failure.
- `url.parse` and `url.resolve` are Node library URL semantics. They are function parameters (`resolve`, `hostOf`) that are never interpreted.
- `Date.now()`: the lookup takes `now` as a parameter, and the oracle supplies the clock reading for each attempt's cache write.
- Real concurrency: the racers run one after another in selection order. Which success `Promise.any` settles on is left open, not decided by timing. Racers still running after the race settles are modelled as running to completion. The entry left under the key is the last writer in selection order, whereas in the source it is the last racer to finish; so the model can pair the served response and the cached one in ways the timing of the source cannot, and misses some pairings it can.
- The waits themselves: the model records each wait's length but does not wait. The floating-point rounding of `3000 * Math.random()` and of `Math.floor(Math.random() * (i + 1))` is not modelled; both use exact reals.
- The shuffle's uniformity: the model proves only that the shuffle permutes.
- Logging, `getTimestamp` and the text of error messages: a status error keeps the URL, status and body the message is built from.
- The request body: it is not forwarded. Headers are a map with exact, single-valued keys, so case-insensitivity and repeated headers are not modelled.
- JavaScript numbers are doubles: statuses, times and counts are modelled as unbounded integers, which is exact at the sizes involved.
- Cache.CacheKey: the round trip is promised only for methods without a colon, which HTTP method tokens never contain.
