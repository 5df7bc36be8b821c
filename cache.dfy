/**
 The response cache: the key a request is cached under, the 24-hour validity
 rule, the lookup that deletes a missing or expired entry, and the process-wide
 map itself as a class whose methods update it in place.
 */
module Cache {
  import opened Types

  /** An entry stays valid for 24 hours, in milliseconds. */
  const DAY_MS: int := 24 * 60 * 60 * 1000

  /** The position of the first colon in `s`, if there is one. */
  function ColonIndex(s: string): (r: Option<nat>)
    ensures r.Some? ==> r.value < |s| && s[r.value] == ':' && ':' !in s[..r.value]
    ensures r.None? ==> ':' !in s
  {
    if s == [] then None
    else if s[0] == ':' then Some(0)
    else
      match ColonIndex(s[1..])
      case None => None
      case Some(i) =>
        assert s[..i + 1] == [s[0]] + s[1..][..i];
        Some(i + 1)
  }

  /**
   Splits a key at its first colon into a method and a URL; the inverse of
   `CacheKey` for methods without a colon (HTTP method names are tokens).
   */
  function SplitKey(key: string): (r: Option<(string, string)>)
    ensures r.Some? ==> ':' !in r.value.0 && r.value.0 + ":" + r.value.1 == key
    ensures r.None? ==> ':' !in key
  {
    match ColonIndex(key)
    case None => None
    case Some(i) =>
      assert key == key[..i] + ":" + key[i + 1..];
      Some((key[..i], key[i + 1..]))
  }

  /** A colon at `n` with none before it is the first colon. */
  lemma FirstColonAt(s: string, n: nat)
    requires n < |s| && s[n] == ':' && ':' !in s[..n]
    ensures ColonIndex(s) == Some(n)
  {
  }

  /**
   The key a request is cached under: its method, a colon, then its raw URL.
   Splitting it at its first colon gives back the method and the URL whenever
   the method has no colon, as HTTP method tokens never do.
   */
  function CacheKey(req: Request): (key: string)
    ensures ':' !in req.httpMethod ==> SplitKey(key) == Some((req.httpMethod, req.url))
  {
    var key := req.httpMethod + ":" + req.url;
    var n := |req.httpMethod|;
    assert key[..n] == req.httpMethod && key[n] == ':' && key[n + 1..] == req.url;
    if ':' !in req.httpMethod then
      FirstColonAt(key, n);
      key
    else key
  }

  /** Requests whose methods have no colon share a key only if method and URL agree. */
  lemma KeyInjective(r1: Request, r2: Request)
    requires ':' !in r1.httpMethod && ':' !in r2.httpMethod
    requires CacheKey(r1) == CacheKey(r2)
    ensures r1.httpMethod == r2.httpMethod && r1.url == r2.url
  {
  }

  /** Requests for the same URL with different methods never share a key. */
  lemma KeySeparatesMethods(r1: Request, r2: Request)
    requires r1.url == r2.url && r1.httpMethod != r2.httpMethod
    ensures CacheKey(r1) != CacheKey(r2)
  {
    var m1, m2 := r1.httpMethod, r2.httpMethod;
    if |m1| == |m2| {
      var i :| 0 <= i < |m1| && m1[i] != m2[i];
      assert CacheKey(r1)[i] == m1[i] && CacheKey(r2)[i] == m2[i];
    } else {
      assert |CacheKey(r1)| != |CacheKey(r2)|;
    }
  }

  /** Requests with the same method and URL share a key, whatever their headers. */
  lemma KeyIgnoresHeaders(r1: Request, r2: Request)
    requires r1.httpMethod == r2.httpMethod && r1.url == r2.url
    ensures CacheKey(r1) == CacheKey(r2)
  {
  }

  /**
   An entry is valid strictly while it is younger than 24 hours at `now`: at
   the time it was stored and before, it is valid; from 24 hours after, never.
   */
  predicate IsCacheValid(e: Entry, now: int)
    ensures now <= e.timestamp ==> IsCacheValid(e, now)
    ensures now >= e.timestamp + 86_400_000 ==> !IsCacheValid(e, now)
  {
    now - e.timestamp < DAY_MS
  }

  /** An entry is valid up to 24 hours minus one millisecond; at 24 hours and after, it is not. */
  lemma ValidityBoundary(e: Entry)
    ensures DAY_MS == 86_400_000
    ensures IsCacheValid(e, e.timestamp)
    ensures IsCacheValid(e, e.timestamp + DAY_MS - 1)
    ensures !IsCacheValid(e, e.timestamp + DAY_MS)
    ensures !IsCacheValid(e, e.timestamp + DAY_MS + 1)
  {
  }

  /** Once an entry has expired it stays expired. */
  lemma ExpiryIsPermanent(e: Entry, t: int, t': int)
    requires t <= t'
    ensures !IsCacheValid(e, t) ==> !IsCacheValid(e, t')
  {
  }

  /** What a lookup returns and the map it leaves behind. */
  datatype LookupResult = LookupResult(hit: Option<Response>, entries: map<string, Entry>)

  /**
   The lookup at the head of a request: a valid entry gives its stored response
   and leaves the map alone; a missing or expired entry is deleted and nothing is returned.
   */
  function LookupEntry(entries: map<string, Entry>, key: string, now: int): (r: LookupResult)
    ensures r.hit.Some? <==> key in entries && IsCacheValid(entries[key], now)
    ensures r.hit.Some? ==> r.hit.value == entries[key].response && r.entries == entries
    ensures r.hit.None? ==> key !in r.entries
    ensures forall k :: k != key ==> (k in r.entries <==> k in entries)
    ensures forall k :: k != key && k in entries ==> r.entries[k] == entries[k]
  {
    if key in entries && IsCacheValid(entries[key], now) then LookupResult(Some(entries[key].response), entries)
    else LookupResult(None, entries - {key})
  }

  /** Looking the same key up twice at the same time gives the same answer and map as once. */
  lemma LookupIdempotent(entries: map<string, Entry>, key: string, now: int)
    ensures var first := LookupEntry(entries, key, now);
            LookupEntry(first.entries, key, now) == first
  {
  }

  /** A response stored at `t` is served, unchanged, by a lookup less than 24 hours later. */
  lemma StoreThenLookup(entries: map<string, Entry>, key: string, resp: Response, t: int, now: int)
    requires t <= now < t + DAY_MS
    ensures LookupEntry(entries[key := Entry(resp, t)], key, now) == LookupResult(Some(resp), entries[key := Entry(resp, t)])
  {
  }

  /** A lookup 24 hours or more after a store misses and removes the entry. */
  lemma StoreThenExpire(entries: map<string, Entry>, key: string, resp: Response, t: int, now: int)
    requires now >= t + DAY_MS
    ensures LookupEntry(entries[key := Entry(resp, t)], key, now) == LookupResult(None, entries - {key})
  {
    assert entries[key := Entry(resp, t)] - {key} == entries - {key};
  }

  /** The process-wide cache: a map from cache key to entry, updated in place. */
  class ResponseCache {
    var entries: map<string, Entry>

    constructor ()
      ensures entries == map[]
    {
      entries := map[];
    }

    /** `cache.get` and, on a miss or an expired entry, `cache.delete`. */
    method Lookup(key: string, now: int) returns (hit: Option<Response>)
      modifies this
      ensures LookupResult(hit, entries) == LookupEntry(old(entries), key, now)
    {
      if key in entries && IsCacheValid(entries[key], now) {
        hit := Some(entries[key].response);
      } else {
        hit := None;
        entries := entries - {key};
      }
    }

    /** `cache.set`: replaces any entry for `key` by the response stamped with `now`. */
    method Store(key: string, response: Response, now: int)
      modifies this
      ensures entries == old(entries)[key := Entry(response, now)]
    {
      entries := entries[key := Entry(response, now)];
    }
  }
}
