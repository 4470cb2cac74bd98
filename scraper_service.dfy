/** The document fetcher: relative-URL resolution and `fetchAndLoad`, whose
    short-lived response cache absorbs repeated requests for one URL.  The
    HTTP request itself is a parameter (`HttpOutcome`); parsing the body
    into a document is not modelled, the body is returned as text. */
module ScraperService {
  import opened Wrappers
  import opened Text

  const RESPONSE_CACHE_TTL: int := 30000
  /** The sweep runs only once the cache holds more entries than this. */
  const SWEEP_THRESHOLD: int := 50

  /** The HTTP client's `validateStatus`: only 2xx is a success. */
  predicate IsSuccessStatus(status: int) {
    200 <= status < 300
  }

  /** The catch branch of the resolver, taken when `new URL(u, base)` throws. */
  function ResolveFallback(base: string, u: string): (r: string)
    ensures EndsWith(r, u)
    ensures StartsWith(u, "//") ==> r == "https:" + u
    ensures !StartsWith(u, "//") && StartsWith(u, "/") ==> r == base + u
    ensures !StartsWith(u, "/") ==> r == u
  {
    if StartsWith(u, "//") then "https:" + u
    else if StartsWith(u, "/") then base + u
    else u
  }

  /** `resolveUrlFactory(base)(u)`.  `parsed` is what WHATWG URL parsing gives
      for `new URL(u, base).href`: `Some(href)`, or `None` when it throws. */
  function ResolveUrl(base: string, u: string, parsed: Option<string>): (r: Option<string>)
    ensures u == "" <==> r == None
    ensures u != "" && parsed.Some? ==> r == parsed
    ensures u != "" && parsed.None? ==> r == Some(ResolveFallback(base, u)) && EndsWith(r.value, u)
  {
    if u == "" then None
    else match parsed
      case Some(href) => Some(href)
      case None => Some(ResolveFallback(base, u))
  }

  /** What the HTTP client reports for one request. */
  datatype HttpOutcome =
    | Response(status: int, body: string)
    | NetworkError(code: string, message: string)

  /** What `fetchAndLoad` throws. */
  datatype FetchError =
    | Timeout(message: string)                 // ECONNABORTED / ETIMEDOUT, rewritten
    | BadStatus(status: int)                   // non-2xx, rethrown as-is
    | Failed(code: string, message: string)    // any other client error, rethrown as-is

  function TimeoutMessage(url: string): string {
    "Request timeout for " + url + " - this is common on free hosting plans"
  }

  /** The error that a failed request turns into. */
  function ErrorFor(url: string, h: HttpOutcome): (e: FetchError)
    requires !(h.Response? && IsSuccessStatus(h.status))
    ensures h.NetworkError? && (h.code == "ECONNABORTED" || h.code == "ETIMEDOUT") <==> e.Timeout?
    ensures e.Timeout? ==> e.message == TimeoutMessage(url)
    ensures h.Response? ==> e == BadStatus(h.status)
  {
    match h
    case Response(status, _) => BadStatus(status)
    case NetworkError(code, message) =>
      if code == "ECONNABORTED" || code == "ETIMEDOUT" then Timeout(TimeoutMessage(url))
      else Failed(code, message)
  }

  datatype CachedBody = CachedBody(data: string, timestamp: int)

  /** A cached body is served while younger than the TTL (strictly). */
  predicate Fresh(c: CachedBody, now: int) {
    now - c.timestamp < RESPONSE_CACHE_TTL
  }

  /** The sweep deletes entries strictly older than the TTL. */
  predicate Stale(c: CachedBody, now: int) {
    now - c.timestamp > RESPONSE_CACHE_TTL
  }

  /** The cache after an insert: swept only when it has grown past the threshold. */
  function AfterInsert(m: map<string, CachedBody>, now: int): map<string, CachedBody> {
    if |m| > SWEEP_THRESHOLD then map k | k in m && !Stale(m[k], now) :: m[k] else m
  }

  /** The module-level `responseCache` map. */
  class ResponseCache {
    var entries: map<string, CachedBody>

    constructor ()
      ensures entries == map[]
    {
      entries := map[];
    }

    /** `fetchAndLoad(url)`: `now` is the clock read on entry, `http` what the
        request would return; `requested` tells whether a request was made. */
    method FetchAndLoad(url: string, now: int, http: HttpOutcome) returns (r: Result<string, FetchError>, requested: bool)
      modifies this
      ensures url in old(entries) && Fresh(old(entries)[url], now) ==>
        !requested && r == Ok(old(entries)[url].data) && entries == old(entries)
      ensures !(url in old(entries) && Fresh(old(entries)[url], now)) ==> requested
      ensures requested && http.Response? && IsSuccessStatus(http.status) ==>
        r == Ok(http.body) && entries == AfterInsert(old(entries)[url := CachedBody(http.body, now)], now)
      ensures requested && !(http.Response? && IsSuccessStatus(http.status)) ==>
        r == Err(ErrorFor(url, http)) && entries == old(entries)
    {
      if url in entries && now - entries[url].timestamp < RESPONSE_CACHE_TTL {
        return Ok(entries[url].data), false;
      }
      requested := true;
      if http.Response? && IsSuccessStatus(http.status) {
        entries := entries[url := CachedBody(http.body, now)];
        if |entries| > SWEEP_THRESHOLD {
          Sweep(now);
        }
        r := Ok(http.body);
      } else {
        r := Err(ErrorFor(url, http));
      }
    }

    /** The clean-up loop: visit every entry and delete those older than the TTL. */
    method Sweep(now: int)
      modifies this
      ensures entries == map k | k in old(entries) && !Stale(old(entries)[k], now) :: old(entries)[k]
    {
      var before := entries;
      var pending := entries.Keys;
      while pending != {}
        invariant pending <= before.Keys
        invariant entries == map k | k in before && (k in pending || !Stale(before[k], now)) :: before[k]
        decreases |pending|
      {
        var k :| k in pending;
        if now - entries[k].timestamp > RESPONSE_CACHE_TTL {
          entries := entries - {k};
        }
        pending := pending - {k};
      }
    }
  }

  /** A body fetched at `now` is kept by the sweep that follows its insert. */
  lemma {:induction false} InsertedBodySurvives(m: map<string, CachedBody>, url: string, body: string, now: int)
    ensures var after := AfterInsert(m[url := CachedBody(body, now)], now);
      url in after && after[url] == CachedBody(body, now) && Fresh(after[url], now)
  {
    var m' := m[url := CachedBody(body, now)];
    assert !Stale(m'[url], now);
  }

  /** After a sweep no stale entry is left, and every fresh one is still there. */
  lemma {:induction false} SweepLeavesNoStaleEntry(m: map<string, CachedBody>, now: int)
    requires |m| > SWEEP_THRESHOLD
    ensures forall k :: k in AfterInsert(m, now) ==> !Stale(AfterInsert(m, now)[k], now)
    ensures forall k :: k in m && !Stale(m[k], now) ==> k in AfterInsert(m, now) && AfterInsert(m, now)[k] == m[k]
  {
  }
}
