/**
 The dispatcher, `getResponse` with `makeConcurrentRequests`: cache lookup,
 then selection, then the race. The racers are run one after another in the
 order of the selection; each writes the cache itself when it gets a 200, so
 a losing racer can write too. `Promise.any` is abstracted to "some success
 if there is one, otherwise every error".
 */
module Dispatcher {
  import opened Types
  import opened Cache
  import opened Selector
  import opened Fetcher

  /** The settled results of the racers, in selection order. */
  function Results(runs: seq<FetchRun>): seq<Result<Response, FetchError>>
  {
    seq(|runs|, i requires 0 <= i < |runs| => runs[i].result)
  }

  /**
   `Promise.any`: when some racer succeeded, the race yields one of the
   successful responses; otherwise it fails with every racer's error, in order.
   */
  predicate AnyOf(results: seq<Result<Response, FetchError>>, r: Result<Response, seq<FetchError>>)
    ensures AnyOf(results, r) ==> (r.Success? <==> exists i :: 0 <= i < |results| && results[i].Success?)
    ensures AnyOf(results, r) && r.Success? ==> r.value in SuccessfulResponses(results)
  {
    if exists i :: 0 <= i < |results| && results[i].Success? then
      r.Success? && exists i :: 0 <= i < |results| && results[i] == Success(r.value)
    else
      r.Failure? && |r.error| == |results| &&
      forall i :: 0 <= i < |results| ==> results[i] == Failure(r.error[i])
  }

  /** The responses of the racers that succeeded. */
  function SuccessfulResponses(results: seq<Result<Response, FetchError>>): set<Response>
  {
    set i | 0 <= i < |results| && results[i].Success? :: results[i].value
  }

  /**
   `Promise.any` over settled results. Which success wins depends on timing,
   which is not modelled: any successful result may be chosen.
   */
  method PromiseAny(results: seq<Result<Response, FetchError>>) returns (r: Result<Response, seq<FetchError>>)
    ensures AnyOf(results, r)
  {
    if exists i :: 0 <= i < |results| && results[i].Success? {
      var i :| 0 <= i < |results| && results[i].Success?;
      return Success(results[i].value);
    }
    var errors: seq<FetchError> := [];
    var i := 0;
    while i < |results|
      invariant 0 <= i <= |results|
      invariant |errors| == i
      invariant forall k :: 0 <= k < i ==> results[k] == Failure(errors[k])
    {
      errors := errors + [results[i].error];
      i := i + 1;
    }
    return Failure(errors);
  }

  /**
   The cache after the racers `runs` have run in order, starting from
   `entries`: each one that got a 200 has replaced the entry under `key`.
   Racers only set, so no key is ever lost.
   */
  function StoreAll(entries: map<string, Entry>, key: string, runs: seq<FetchRun>): (m: map<string, Entry>)
    ensures entries.Keys <= m.Keys
    decreases |runs|
  {
    if runs == [] then entries
    else
      var before := StoreAll(entries, key, runs[..|runs| - 1]);
      var last := runs[|runs| - 1];
      if last.stored.Some? then before[key := last.stored.value] else before
  }

  /**
   Racers only ever write under `key`: every other key keeps its entry; with
   no writer the map is unchanged; otherwise the entry under `key` is the one
   written by the last racer that wrote.
   */
  lemma {:induction false} StoreAllFacts(entries: map<string, Entry>, key: string, runs: seq<FetchRun>)
    ensures var m := StoreAll(entries, key, runs);
            && (forall k :: k != key ==> (k in m <==> k in entries))
            && (forall k :: k != key && k in entries ==> m[k] == entries[k])
            && ((forall i :: 0 <= i < |runs| ==> runs[i].stored.None?) ==> m == entries)
            && ((exists i :: 0 <= i < |runs| && runs[i].stored.Some?) ==>
                  key in m && exists i :: 0 <= i < |runs| && runs[i].stored == Some(m[key]) &&
                                          forall j :: i < j < |runs| ==> runs[j].stored.None?)
    decreases |runs|
  {
    if runs != [] {
      var prefix := runs[..|runs| - 1];
      StoreAllFacts(entries, key, prefix);
      var last := runs[|runs| - 1];
      var m := StoreAll(entries, key, runs);
      if last.stored.Some? {
        assert runs[|runs| - 1].stored == Some(m[key]);
      } else if exists i :: 0 <= i < |runs| && runs[i].stored.Some? {
        var i :| 0 <= i < |runs| && runs[i].stored.Some?;
        assert prefix[i].stored.Some?;
      }
    }
  }

  /** One more racer writes (or does not) after the others. */
  lemma StoreAllAppend(entries: map<string, Entry>, key: string, runs: seq<FetchRun>, run: FetchRun)
    ensures StoreAll(entries, key, runs + [run]) ==
            var before := StoreAll(entries, key, runs);
            if run.stored.Some? then before[key := run.stored.value] else before
  {
  }

  /** One fetch per selected upstream, each with its own oracle and the default budget: one run per racer. */
  function Race(selected: seq<Url>, req: Request, oracles: seq<FetchOracle>, resolve: (Url, string) -> Url): (runs: seq<FetchRun>)
    requires |oracles| >= |selected|
    requires forall i :: 0 <= i < |oracles| ==> ValidOracle(oracles[i], DEFAULT_RETRIES)
    ensures |runs| == |selected|
  {
    seq(|selected|, i requires 0 <= i < |selected| => Fetch(oracles[i], resolve(selected[i], req.url), DEFAULT_RETRIES))
  }

  /** Racing one more upstream appends its fetch to the runs. */
  lemma RaceAppend(selected: seq<Url>, i: nat, req: Request, oracles: seq<FetchOracle>, resolve: (Url, string) -> Url)
    requires i < |selected| && |oracles| >= |selected|
    requires forall k :: 0 <= k < |oracles| ==> ValidOracle(oracles[k], DEFAULT_RETRIES)
    ensures Race(selected[..i + 1], req, oracles, resolve) ==
            Race(selected[..i], req, oracles, resolve) + [Fetch(oracles[i], resolve(selected[i], req.url), DEFAULT_RETRIES)]
  {
  }

  /**
   Racers that each cache exactly their 200 leave an entry under the key, in a
   map that had none, exactly when one of them got a 200; the entry is the 200
   response of one of them.
   */
  lemma {:induction false} CachedIffSome200(entries: map<string, Entry>, key: string, runs: seq<FetchRun>)
    requires key !in entries
    requires forall i :: 0 <= i < |runs| ==> StoresIts200(runs[i])
    ensures var m := StoreAll(entries, key, runs);
            && (key in m <==> exists i :: 0 <= i < |runs| && runs[i].result.Success? && runs[i].result.value.statusCode == 200)
            && (key in m ==> m[key].response.statusCode == 200 &&
                             exists i :: 0 <= i < |runs| && runs[i].result == Success(m[key].response))
  {
    var m := StoreAll(entries, key, runs);
    StoreAllFacts(entries, key, runs);
    if exists i :: 0 <= i < |runs| && runs[i].stored.Some? {
      var i :| 0 <= i < |runs| && runs[i].stored == Some(m[key]) &&
               forall j :: i < j < |runs| ==> runs[j].stored.None?;
      assert StoresIts200(runs[i]);
      assert runs[i].result == Success(m[key].response);
    } else {
      forall i | 0 <= i < |runs|
        ensures !(runs[i].result.Success? && runs[i].result.value.statusCode == 200)
      {
        assert StoresIts200(runs[i]);
      }
    }
  }

  /** Every racer of a race caches exactly its 200. */
  lemma RaceStoresIts200(selected: seq<Url>, req: Request, oracles: seq<FetchOracle>, resolve: (Url, string) -> Url)
    requires |oracles| >= |selected|
    requires forall i :: 0 <= i < |oracles| ==> ValidOracle(oracles[i], DEFAULT_RETRIES)
    ensures var runs := Race(selected, req, oracles, resolve);
            forall i :: 0 <= i < |runs| ==> StoresIts200(runs[i])
  {
    var runs := Race(selected, req, oracles, resolve);
    forall i | 0 <= i < |runs|
      ensures StoresIts200(runs[i])
    {
      FetchStoresIts200(oracles[i], resolve(selected[i], req.url), DEFAULT_RETRIES);
    }
  }

  /**
   After a miss, the cache holds an entry under the key exactly when some
   racer got a 200, and that entry is the 200 response of one of them.
   */
  lemma MissCachesIffSomeRacerGot200(entries: map<string, Entry>, key: string, selected: seq<Url>, req: Request,
                                     oracles: seq<FetchOracle>, resolve: (Url, string) -> Url)
    requires |oracles| >= |selected|
    requires forall i :: 0 <= i < |oracles| ==> ValidOracle(oracles[i], DEFAULT_RETRIES)
    ensures var runs := Race(selected, req, oracles, resolve);
            var m := StoreAll(entries - {key}, key, runs);
            && (key in m <==> exists i :: 0 <= i < |runs| && runs[i].result.Success? && runs[i].result.value.statusCode == 200)
            && (key in m ==> m[key].response.statusCode == 200 &&
                             exists i :: 0 <= i < |runs| && runs[i].result == Success(m[key].response))
  {
    RaceStoresIts200(selected, req, oracles, resolve);
    CachedIffSome200(entries - {key}, key, Race(selected, req, oracles, resolve));
  }

  /**
   When `Promise.any` rejects, every racer failed, so none of them wrote the
   cache: a miss leaves the map exactly as the lookup left it.
   */
  lemma FailedRaceCachesNothing(entries: map<string, Entry>, key: string, selected: seq<Url>, req: Request,
                                oracles: seq<FetchOracle>, resolve: (Url, string) -> Url,
                                r: Result<Response, seq<FetchError>>)
    requires |oracles| >= |selected|
    requires forall i :: 0 <= i < |oracles| ==> ValidOracle(oracles[i], DEFAULT_RETRIES)
    requires AnyOf(Results(Race(selected, req, oracles, resolve)), r) && r.Failure?
    ensures StoreAll(entries, key, Race(selected, req, oracles, resolve)) == entries
  {
    var runs := Race(selected, req, oracles, resolve);
    RaceStoresIts200(selected, req, oracles, resolve);
    forall i | 0 <= i < |runs|
      ensures runs[i].stored.None?
    {
      assert Results(runs)[i] == runs[i].result;
      assert StoresIts200(runs[i]);
    }
    StoreAllFacts(entries, key, runs);
  }

  /**
   The race can serve one response and cache another: when the first racer
   gets a 201 and a later racer a 200, `Promise.any` may settle on the 201,
   which is not cached, while the 200 of the losing racer is what the cache
   then holds under the key.
   */
  lemma LosingRacerCanWriteCache(key: string, first: FetchRun, second: FetchRun)
    requires StoresIts200(first) && StoresIts200(second)
    requires first.result.Success? && first.result.value.statusCode == 201
    requires second.result.Success? && second.result.value.statusCode == 200
    ensures AnyOf(Results([first, second]), Success(first.result.value))
    ensures var m := StoreAll(map[], key, [first, second]);
            key in m && m[key].response == second.result.value && m[key].response != first.result.value
  {
    var runs := [first, second];
    assert Results(runs)[0] == first.result;
    assert runs[..1] == [first] && [first][..0] == [];
  }

  /**
   Racer number `i` runs after the first `i`: its fetch joins the runs, and it
   writes the cache (or not) after those before it.
   */
  method RunRacer(cache: ResponseCache, selected: seq<Url>, i: nat, req: Request, oracles: seq<FetchOracle>,
                  resolve: (Url, string) -> Url, hostOf: Url -> string,
                  ghost base: map<string, Entry>, ghost runs: seq<FetchRun>)
    returns (result: Result<Response, FetchError>, ghost runs': seq<FetchRun>)
    requires i < |selected| && |oracles| >= |selected|
    requires forall k :: 0 <= k < |oracles| ==> ValidOracle(oracles[k], DEFAULT_RETRIES)
    requires runs == Race(selected[..i], req, oracles, resolve)
    requires cache.entries == StoreAll(base, CacheKey(req), runs)
    modifies cache
    ensures runs' == Race(selected[..i + 1], req, oracles, resolve)
    ensures runs' == runs + [runs'[i]] && result == runs'[i].result
    ensures cache.entries == StoreAll(base, CacheKey(req), runs')
  {
    ghost var run := Fetch(oracles[i], resolve(selected[i], req.url), DEFAULT_RETRIES);
    var attempts, delays, options;
    result, attempts, delays, options := MakeRequest(cache, selected[i], req, DEFAULT_RETRIES, oracles[i], resolve, hostOf);
    StoreAllAppend(base, CacheKey(req), runs, run);
    RaceAppend(selected, i, req, oracles, resolve);
    runs' := runs + [run];
  }

  /**
   The racers of `selectedUrls.map((url) => makeRequest(url, clientReq))`,
   run one after another in selection order, each with the default budget.
   */
  method RunRacers(cache: ResponseCache, selected: seq<Url>, req: Request, oracles: seq<FetchOracle>,
                   resolve: (Url, string) -> Url, hostOf: Url -> string)
    returns (results: seq<Result<Response, FetchError>>, ghost runs: seq<FetchRun>)
    requires |oracles| >= |selected|
    requires forall i :: 0 <= i < |oracles| ==> ValidOracle(oracles[i], DEFAULT_RETRIES)
    modifies cache
    ensures runs == Race(selected, req, oracles, resolve)
    ensures results == Results(runs)
    ensures cache.entries == StoreAll(old(cache.entries), CacheKey(req), runs)
  {
    ghost var base := cache.entries;
    results, runs := [], [];
    var i := 0;
    while i < |selected|
      invariant 0 <= i <= |selected|
      invariant runs == Race(selected[..i], req, oracles, resolve)
      invariant |results| == i
      invariant forall k :: 0 <= k < i ==> results[k] == runs[k].result
      invariant cache.entries == StoreAll(base, CacheKey(req), runs)
    {
      var result;
      result, runs := RunRacer(cache, selected, i, req, oracles, resolve, hostOf, base, runs);
      results := results + [result];
      i := i + 1;
    }
    assert selected[..i] == selected;
  }

  /**
   `makeConcurrentRequests(clientReq)`: select the upstreams, race them, and
   settle the race as `Promise.any` does.
   */
  method MakeConcurrentRequests(cache: ResponseCache, req: Request, upstreams: array<Url>,
                                picks: seq<nat>, oracles: seq<FetchOracle>,
                                resolve: (Url, string) -> Url, hostOf: Url -> string)
    returns (r: Result<Response, seq<FetchError>>, ghost runs: seq<FetchRun>)
    requires ValidPicks(picks, upstreams.Length)
    requires |oracles| >= MAX_CONCURRENT_REQUESTS
    requires forall i :: 0 <= i < |oracles| ==> ValidOracle(oracles[i], DEFAULT_RETRIES)
    modifies cache
    ensures runs == Race(Selection(upstreams[..], picks), req, oracles, resolve)
    ensures AnyOf(Results(runs), r)
    ensures cache.entries == StoreAll(old(cache.entries), CacheKey(req), runs)
  {
    var selected := SelectUpstreams(upstreams, picks);
    var results;
    results, runs := RunRacers(cache, selected, req, oracles, resolve, hostOf);
    r := PromiseAny(results);
  }

  /**
   `getResponse(clientReq)`: a valid cached entry answers at once, with no
   upstream contacted; otherwise the entry is dropped and the request goes to
   `MakeConcurrentRequests`. `upstreams` is the configured list, which is only
   read; `picks` stand for the shuffle's `Math.random` draws, `oracles[i]` for
   the network as seen by the `i`-th racer.
   */
  method GetResponse(cache: ResponseCache, req: Request, upstreams: array<Url>, now: int,
                     picks: seq<nat>, oracles: seq<FetchOracle>,
                     resolve: (Url, string) -> Url, hostOf: Url -> string)
    returns (r: Result<Response, seq<FetchError>>, ghost runs: seq<FetchRun>)
    requires ValidPicks(picks, upstreams.Length)
    requires |oracles| >= MAX_CONCURRENT_REQUESTS
    requires forall i :: 0 <= i < |oracles| ==> ValidOracle(oracles[i], DEFAULT_RETRIES)
    modifies cache
    ensures var key := CacheKey(req);
            key in old(cache.entries) && IsCacheValid(old(cache.entries)[key], now) ==>
              && r == Success(old(cache.entries)[key].response)
              && cache.entries == old(cache.entries)
              && runs == []
    ensures var key := CacheKey(req);
            !(key in old(cache.entries) && IsCacheValid(old(cache.entries)[key], now)) ==>
              && runs == Race(Selection(upstreams[..], picks), req, oracles, resolve)
              && AnyOf(Results(runs), r)
              && cache.entries == StoreAll(old(cache.entries) - {key}, key, runs)
  {
    var hit := cache.Lookup(CacheKey(req), now);
    if hit.Some? {
      r, runs := Success(hit.value), [];
    } else {
      r, runs := MakeConcurrentRequests(cache, req, upstreams, picks, oracles, resolve, hostOf);
    }
  }
}
