/** The homepage aggregator: per-site scraping behind a small result cache,
    the merge of the two sites into one indexed list, and the supervisor that
    keeps a single homepage snapshot with a TTL, a limit on forced refreshes
    and a stale fallback.  Page fetches, extractor outputs and clock readings
    are parameters. */
module Homepage {
  import opened Wrappers
  import opened Text
  import opened Dedup

  /** A record produced by a section extractor.  Missing text fields are ''
      (the source treats `undefined`, `null` and '' alike through `||`);
      `index` is `None` when the extractor set no `index` property. */
  datatype Record = Record(href: string, title: string, image: string, section: string, index: Option<int>, source: string)

  /** `(it.href || it.title || it.image || '').toString().toLowerCase()`. */
  function ContentKey(r: Record): (k: string)
    ensures k == "" <==> r.href == "" && r.title == "" && r.image == ""
    ensures r.href != "" ==> k == Lower(r.href)
    ensures r.href == "" && r.title != "" ==> k == Lower(r.title)
  {
    LowerEmpty(r.href);
    LowerEmpty(r.title);
    LowerEmpty(r.image);
    Lower(if r.href != "" then r.href else if r.title != "" then r.title else r.image)
  }

  predicate HasContent(r: Record) {
    ContentKey(r) != ""
  }

  /** `it.section || 'unknown'`. */
  function SectionName(r: Record): string {
    if r.section == "" then "unknown" else r.section
  }

  /** The merge key `${contentKey}::${section}`. */
  function SectionKey(r: Record): string {
    ContentKey(r) + "::" + SectionName(r)
  }

  // ---------------------------------------------------------------------
  // Per-site result cache

  const SITE_CACHE_TTL: int := 2 * 60 * 1000
  /** Above this many entries `setCache` evicts the oldest `EVICT_COUNT`. */
  const MAX_SITE_ENTRIES: nat := 10
  const EVICT_COUNT: nat := 5

  /** `getCacheKey(url, includeDetails)`: the template literal `${url}_${includeDetails}`. */
  function CacheKey(url: string, includeDetails: bool): string {
    url + "_" + (if includeDetails then "true" else "false")
  }

  /** Distinct (url, includeDetails) pairs never share a cache slot. */
  lemma {:induction false} CacheKeyInjective(u1: string, b1: bool, u2: string, b2: bool)
    requires CacheKey(u1, b1) == CacheKey(u2, b2)
    ensures u1 == u2 && b1 == b2
  {
    var k := CacheKey(u1, b1);
    var s1 := "_" + (if b1 then "true" else "false");
    var s2 := "_" + (if b2 then "true" else "false");
    assert k == u1 + s1 && k == u2 + s2;
    // Five characters from the end, "_true" has its '_' and "_false" its 'f'.
    assert k[|k| - 5] == s1[|s1| - 5] && k[|k| - 5] == s2[|s2| - 5];
    assert u1 == k[..|k| - |s1|];
  }

  datatype SiteEntry = SiteEntry(records: seq<Record>, timestamp: int)

  predicate Distinct(s: seq<string>) {
    forall i, j :: 0 <= i < j < |s| ==> s[i] != s[j]
  }

  /** What `getFromCache` answers on the cache contents. */
  function CachedRecords(data: map<string, SiteEntry>, key: string, now: int): Option<seq<Record>> {
    if key in data && now - data[key].timestamp < SITE_CACHE_TTL then Some(data[key].records) else None
  }

  /** Key order after `cache.set(key, …)`: a new key goes last, an existing
      key keeps its position. */
  function InsertionOrder(keys: seq<string>, key: string): seq<string> {
    if key in keys then keys else keys + [key]
  }

  /** Key order after the overflow check that drops the oldest keys. */
  function EvictOldest(keys: seq<string>): seq<string> {
    if |keys| > MAX_SITE_ENTRIES then keys[EVICT_COUNT..] else keys
  }

  function Restrict(m: map<string, SiteEntry>, keys: seq<string>): map<string, SiteEntry> {
    map k | k in m && k in keys :: m[k]
  }

  /** `setCache` never lets the cache grow past 10 entries, and the key it has
      just written is never among the evicted ones. */
  lemma {:induction false} SetCacheBoundAndSurvival(keys: seq<string>, key: string)
    requires |keys| <= MAX_SITE_ENTRIES && Distinct(keys)
    ensures |EvictOldest(InsertionOrder(keys, key))| <= MAX_SITE_ENTRIES
    ensures key in EvictOldest(InsertionOrder(keys, key))
    ensures Distinct(EvictOldest(InsertionOrder(keys, key)))
  {
    var ins := InsertionOrder(keys, key);
    if key !in keys {
      assert ins[|ins| - 1] == key;
      if |ins| > MAX_SITE_ENTRIES {
        assert ins[EVICT_COUNT..][|ins| - 1 - EVICT_COUNT] == key;
      }
    }
  }

  /** In a list without repeats, the keys after the first `n` are exactly
      those that are not among the first `n`. */
  lemma {:induction false} DropPrefixMembership(keys: seq<string>, n: nat)
    requires n <= |keys| && Distinct(keys)
    ensures forall k :: k in keys[n..] <==> k in keys && k !in keys[..n]
    ensures Distinct(keys[n..])
  {
    forall k | k in keys
      ensures k in keys[n..] <==> k !in keys[..n]
    {
      var j :| 0 <= j < |keys| && keys[j] == k;
      if j < n {
        assert keys[..n][j] == k;
      } else {
        assert keys[n..][j - n] == k;
      }
    }
    assert forall k :: k in keys[n..] ==> k in keys;
  }

  /** The module-level `cache` Map: `keys` is its insertion order, `data` its contents. */
  class SiteCache {
    var keys: seq<string>
    var data: map<string, SiteEntry>

    ghost predicate Valid()
      reads this
    {
      |keys| <= MAX_SITE_ENTRIES && Distinct(keys) && forall k :: k in data <==> k in keys
    }

    constructor ()
      ensures Valid() && keys == [] && data == map[]
    {
      keys := [];
      data := map[];
    }

    /** `setCache(key, records)` at time `now`. */
    method SetCache(key: string, records: seq<Record>, now: int)
      requires Valid()
      modifies this
      ensures Valid()
      ensures keys == EvictOldest(InsertionOrder(old(keys), key))
      ensures data == Restrict(old(data)[key := SiteEntry(records, now)], keys)
      ensures key in data && data[key] == SiteEntry(records, now)
    {
      SetCacheBoundAndSurvival(keys, key);
      data := data[key := SiteEntry(records, now)];
      if key !in keys {
        keys := keys + [key];
      }
      if |keys| > MAX_SITE_ENTRIES {
        EvictOldestKeys();
      }
    }

    /** The overflow branch of `setCache`: delete the five oldest keys. */
    method EvictOldestKeys()
      requires EVICT_COUNT <= |keys| && Distinct(keys) && forall k :: k in data <==> k in keys
      modifies this
      ensures keys == old(keys)[EVICT_COUNT..]
      ensures data == Restrict(old(data), keys)
      ensures Distinct(keys) && forall k :: k in data <==> k in keys
    {
      var oldest := keys[..EVICT_COUNT];
      var kept := data;
      var i := 0;
      while i < |oldest|
        invariant 0 <= i <= |oldest|
        invariant kept == map k | k in data && k !in oldest[..i] :: data[k]
      {
        assert oldest[..i + 1] == oldest[..i] + [oldest[i]];
        kept := kept - {oldest[i]};
        i := i + 1;
      }
      assert oldest[..i] == oldest;
      DropPrefixMembership(keys, EVICT_COUNT);
      data := kept;
      keys := keys[EVICT_COUNT..];
    }

    /** `scrapeSite(url, base, source, includeDetails)`.  `now` is the clock on
        entry and `doneAt` the clock when the result is cached;
        `fetchError` is `Some(reason)` when `fetchAndLoad` throws; `slider` and
        `scrapers` are the outcomes of the slider and the four section
        extractors, in the order their pushes happen. */
    method ScrapeSite(url: string, source: string, includeDetails: bool, now: int,
                      fetchError: Option<string>, slider: Result<seq<Record>, string>,
                      scrapers: seq<Result<seq<Record>, string>>, doneAt: int)
      returns (r: Result<seq<Record>, string>)
      requires Valid()
      modifies this
      ensures Valid()
      ensures CachedRecords(old(data), CacheKey(url, includeDetails), now).Some? ==>
        r == Ok(CachedRecords(old(data), CacheKey(url, includeDetails), now).value) &&
        keys == old(keys) && data == old(data)
      ensures CachedRecords(old(data), CacheKey(url, includeDetails), now).None? && fetchError.Some? ==>
        r == Err(fetchError.value) && keys == old(keys) && data == old(data)
      ensures CachedRecords(old(data), CacheKey(url, includeDetails), now).None? && fetchError.None? ==>
        r == Ok(FirstByKey(Collected(source, slider, scrapers), HasContent, SectionKey, {})) &&
        keys == EvictOldest(InsertionOrder(old(keys), CacheKey(url, includeDetails))) &&
        data == Restrict(old(data)[CacheKey(url, includeDetails) := SiteEntry(r.value, doneAt)], keys)
    {
      var cacheKey := CacheKey(url, includeDetails);
      if cacheKey in data && now - data[cacheKey].timestamp < SITE_CACHE_TTL {
        return Ok(data[cacheKey].records);
      }
      if fetchError.Some? {
        return Err(fetchError.value);
      }
      var items: seq<Record> := [];
      if source == "hianime" && slider.Ok? {
        items := items + slider.value;
      }
      var i := 0;
      while i < |scrapers|
        invariant 0 <= i <= |scrapers|
        invariant items == (if source == "hianime" && slider.Ok? then slider.value else []) + Pushed(scrapers[..i])
      {
        assert scrapers[..i + 1][..i] == scrapers[..i];
        if scrapers[i].Ok? {
          items := items + scrapers[i].value;
        }
        i := i + 1;
      }
      assert scrapers[..i] == scrapers;
      if source != "hianime" && source != "123anime" && |items| < 50 && slider.Ok? {
        items := items + slider.value;
      }
      var deduped := DedupLoop(items, HasContent, SectionKey);
      SetCache(cacheKey, deduped, doneAt);
      r := Ok(deduped);
    }
  }

  /** The records pushed by the section extractors that settle successfully;
      a failure or a timeout contributes nothing. */
  function Pushed(outcomes: seq<Result<seq<Record>, string>>): seq<Record> {
    if outcomes == [] then []
    else
      var last := outcomes[|outcomes| - 1];
      Pushed(outcomes[..|outcomes| - 1]) + (if last.Ok? then last.value else [])
  }

  /** The `items` list of `scrapeSite` before deduplication: the slider first
      for hianime, then the extractors, then the slider for any other site
      except 123anime while fewer than 50 items were gathered. */
  function Collected(source: string, slider: Result<seq<Record>, string>,
                     scrapers: seq<Result<seq<Record>, string>>): seq<Record>
  {
    var head := (if source == "hianime" && slider.Ok? then slider.value else []) + Pushed(scrapers);
    if source != "hianime" && source != "123anime" && |head| < 50 && slider.Ok? then head + slider.value else head
  }

  /** The slider contributes at most once, and never for 123anime. */
  lemma {:induction false} SliderPlacement(source: string, slider: Result<seq<Record>, string>,
                                           scrapers: seq<Result<seq<Record>, string>>)
    ensures source == "hianime" && slider.Ok? ==> Collected(source, slider, scrapers) == slider.value + Pushed(scrapers)
    ensures source == "123anime" || slider.Err? ==> Collected(source, slider, scrapers) == Pushed(scrapers)
    ensures source != "hianime" && |Pushed(scrapers)| >= 50 ==> Collected(source, slider, scrapers) == Pushed(scrapers)
  {
  }

  // ---------------------------------------------------------------------
  // The two-site merge

  datatype SourceError = SourceError(source: string, error: string)

  /** The payload of `scrapeHomepage`; `errors` is `None` when the property is absent. */
  datatype Homepage = Homepage(success: bool, data: seq<Record>, total: nat,
                               sectionTotals: map<string, nat>, errors: Option<seq<SourceError>>)

  /** `combined`: hianime's records, then 123anime's. */
  function Combined(hi: Result<seq<Record>, string>, ani: Result<seq<Record>, string>): seq<Record> {
    (if hi.Ok? then hi.value else []) + (if ani.Ok? then ani.value else [])
  }

  /** One entry per rejected site, hianime first; `String(reason)` is the given error text. */
  function SourceErrors(hi: Result<seq<Record>, string>, ani: Result<seq<Record>, string>): (es: seq<SourceError>)
    ensures |es| == (if hi.Err? then 1 else 0) + (if ani.Err? then 1 else 0)
    ensures hi.Err? ==> es[0] == SourceError("hianime", hi.error)
    ensures ani.Err? ==> es[|es| - 1] == SourceError("123anime", ani.error)
  {
    (if hi.Err? then [SourceError("hianime", hi.error)] else []) +
    (if ani.Err? then [SourceError("123anime", ani.error)] else [])
  }

  /** The number of records of section `s` in `rs`. */
  function Count(rs: seq<Record>, s: string): nat {
    if rs == [] then 0
    else Count(rs[..|rs| - 1], s) + (if SectionName(rs[|rs| - 1]) == s then 1 else 0)
  }

  function CountIn(m: map<string, nat>, s: string): nat {
    if s in m then m[s] else 0
  }

  /** The per-section number that `sectionCounters` hands record `i`: its rank
      among the records of its section, counting from 1. */
  function PositionInSection(rs: seq<Record>, i: nat): nat
    requires i < |rs|
  {
    Count(rs[..i + 1], SectionName(rs[i]))
  }

  /** `{ index: k, ...item }`: the record's own `index`, when it has one, wins. */
  function WithIndex(r: Record, k: int): Record {
    r.(index := Some(if r.index.Some? then r.index.value else k))
  }

  /** The counting loop shared by `sectionTotals` and `sectionCounters`:
      one step adds 1 to the entry of the record's section. */
  function Bump(m: map<string, nat>, r: Record): map<string, nat> {
    m[SectionName(r) := CountIn(m, SectionName(r)) + 1]
  }

  /** The `sectionTotals` loop: one entry per section present, holding the
      number of records filed under it. */
  method SectionTotals(ds: seq<Record>) returns (totals: map<string, nat>)
    ensures forall s :: s in totals <==> Count(ds, s) > 0
    ensures forall s :: s in totals ==> totals[s] == Count(ds, s)
  {
    totals := map[];
    var i := 0;
    while i < |ds|
      invariant 0 <= i <= |ds|
      invariant forall s :: CountIn(totals, s) == Count(ds[..i], s)
      invariant forall s :: s in totals ==> totals[s] > 0
    {
      assert ds[..i + 1][..i] == ds[..i];
      totals := Bump(totals, ds[i]);
      i := i + 1;
    }
    assert ds[..i] == ds;
  }

  /** The `sectionCounters` map: each record gets its rank within its section,
      unless it carries its own `index`. */
  method IndexBySection(ds: seq<Record>) returns (indexed: seq<Record>)
    ensures |indexed| == |ds|
    ensures forall i :: 0 <= i < |ds| ==> indexed[i] == WithIndex(ds[i], PositionInSection(ds, i))
  {
    var counters: map<string, nat> := map[];
    indexed := [];
    var i := 0;
    while i < |ds|
      invariant 0 <= i <= |ds| && |indexed| == i
      invariant forall s :: CountIn(counters, s) == Count(ds[..i], s)
      invariant forall j :: 0 <= j < i ==> indexed[j] == WithIndex(ds[j], PositionInSection(ds, j))
    {
      assert ds[..i + 1][..i] == ds[..i];
      counters := Bump(counters, ds[i]);
      indexed := indexed + [WithIndex(ds[i], counters[SectionName(ds[i])])];
      i := i + 1;
    }
  }

  /** `scrapeHomepage` once both sites have settled. */
  method BuildHomepage(hi: Result<seq<Record>, string>, ani: Result<seq<Record>, string>) returns (res: Homepage)
    ensures res.success && res.total == |res.data|
    ensures res.errors == if SourceErrors(hi, ani) == [] then None else Some(SourceErrors(hi, ani))
    ensures var ds := FirstByKey(Combined(hi, ani), HasContent, SectionKey, {});
      |res.data| == |ds| &&
      (forall i :: 0 <= i < |ds| ==> res.data[i] == WithIndex(ds[i], PositionInSection(ds, i))) &&
      (forall s :: s in res.sectionTotals <==> Count(ds, s) > 0) &&
      (forall s :: s in res.sectionTotals ==> res.sectionTotals[s] == Count(ds, s))
  {
    var errors := SourceErrors(hi, ani);
    var deduped := DedupLoop(Combined(hi, ani), HasContent, SectionKey);
    var totals := SectionTotals(deduped);
    var indexed := IndexBySection(deduped);
    res := Homepage(true, indexed, |indexed|, totals, if errors == [] then None else Some(errors));
  }

  lemma {:induction false} CountPrefixMonotone(rs: seq<Record>, s: string, i: nat, j: nat)
    requires i <= j <= |rs|
    ensures Count(rs[..i], s) <= Count(rs[..j], s)
    decreases j - i
  {
    if i < j {
      CountPrefixMonotone(rs, s, i, j - 1);
      assert rs[..j][..j - 1] == rs[..j - 1];
    }
  }

  lemma {:induction false} CountAtMostLength(rs: seq<Record>, s: string)
    ensures Count(rs, s) <= |rs|
    decreases |rs|
  {
    if rs != [] {
      CountAtMostLength(rs[..|rs| - 1], s);
    }
  }

  /** Within a section the computed numbers run 1, 2, … in list order: every
      number lies between 1 and the section total, and a later record of the
      same section gets a strictly larger one. */
  lemma {:induction false} SectionNumbering(rs: seq<Record>, i: nat, j: nat)
    requires i < j < |rs| && SectionName(rs[i]) == SectionName(rs[j])
    ensures 1 <= PositionInSection(rs, i) < PositionInSection(rs, j) <= Count(rs, SectionName(rs[j]))
  {
    var s := SectionName(rs[j]);
    PositionIsCountBefore(rs, i);
    PositionIsCountBefore(rs, j);
    CountPrefixMonotone(rs, s, i + 1, j);
    PositionAtMostTotal(rs, j);
  }

  lemma PositionAtMostTotal(rs: seq<Record>, j: nat)
    requires j < |rs|
    ensures PositionInSection(rs, j) <= Count(rs, SectionName(rs[j]))
  {
    CountPrefixMonotone(rs, SectionName(rs[j]), j + 1, |rs|);
    assert rs[..|rs|] == rs;
  }

  /** Record `i`'s number is one more than the records of its section
      before it. */
  lemma PositionIsCountBefore(rs: seq<Record>, i: nat)
    requires i < |rs|
    ensures PositionInSection(rs, i) == Count(rs[..i], SectionName(rs[i])) + 1
  {
    assert rs[..i + 1][..i] == rs[..i];
  }

  /** The merged list keeps only records with a content key, no two of them
      share content key and section, and each is one of the combined inputs. */
  lemma {:induction false} MergedRecordsAreDistinct(hi: Result<seq<Record>, string>, ani: Result<seq<Record>, string>)
    ensures var ds := FirstByKey(Combined(hi, ani), HasContent, SectionKey, {});
      (forall i :: 0 <= i < |ds| ==> HasContent(ds[i])) &&
      (forall i, j :: 0 <= i < j < |ds| ==> SectionKey(ds[i]) != SectionKey(ds[j])) &&
      (forall r :: r in ds ==> r in Combined(hi, ani))
  {
    FirstByKeyDistinct(Combined(hi, ani), HasContent, SectionKey, {});
    FirstByKeyFromInput(Combined(hi, ani), HasContent, SectionKey, {});
  }

  /** When hianime fails, 123anime's records are the whole input of the merge,
      and the failure is the only error reported. */
  lemma {:induction false} OneSiteDown(hiError: string, ani: seq<Record>)
    ensures Combined(Err(hiError), Ok(ani)) == ani
    ensures SourceErrors(Err(hiError), Ok(ani)) == [SourceError("hianime", hiError)]
  {
  }

  // ---------------------------------------------------------------------
  // One section across both sites

  /** The payload of `scrapeSectionAcrossSites`. */
  datatype SectionPayload = SectionPayload(success: bool, data: seq<Record>, errors: Option<seq<SourceError>>)

  /** `scrapeSectionAcrossSites(scraperFn)`, given each site's outcome (a
      failed fetch or a throwing extractor is an `Err`). */
  method ScrapeSectionAcrossSites(hi: Result<seq<Record>, string>, ani: Result<seq<Record>, string>)
    returns (res: SectionPayload)
    ensures res.success
    ensures res.data == FirstByKey(Combined(hi, ani), HasContent, ContentKey, {})
    ensures res.errors == if SourceErrors(hi, ani) == [] then None else Some(SourceErrors(hi, ani))
  {
    var errors := SourceErrors(hi, ani);
    var deduped := DedupLoop(Combined(hi, ani), HasContent, ContentKey);
    res := SectionPayload(true, deduped, if errors == [] then None else Some(errors));
  }

  /** Across sites a title is kept once even when the two sites file it under
      different sections. */
  lemma {:induction false} SectionMergeIgnoresSection(hi: Result<seq<Record>, string>, ani: Result<seq<Record>, string>)
    ensures var ds := FirstByKey(Combined(hi, ani), HasContent, ContentKey, {});
      forall i, j :: 0 <= i < j < |ds| ==> ContentKey(ds[i]) != ContentKey(ds[j])
  {
    FirstByKeyDistinct(Combined(hi, ani), HasContent, ContentKey, {});
  }

  // ---------------------------------------------------------------------
  // The snapshot supervisor

  const DEFAULT_HOMEPAGE_TTL: int := 60 * 1000
  const DEFAULT_MIN_FORCE_INTERVAL: int := 60 * 1000

  /** `homepageCache`: one slot, whichever `includeDetails` variant wrote it last. */
  datatype Snapshot = Snapshot(value: Homepage, timestamp: int, includeDetails: bool)

  /** What `getHomepageCached` resolves with. */
  datatype Reply = Reply(value: Homepage, lastUpdated: int, rateLimited: bool, error: Option<string>)

  /** Which branch `getHomepageCached` takes before any scraping. */
  datatype Decision = ServeSnapshot | ServeRateLimited | Scrape

  function Decide(snapshot: Option<Snapshot>, snapshotTs: int, lastForceAt: int, ttl: int, minForceInterval: int,
                  includeDetails: bool, force: bool, now: int): (d: Decision)
    ensures d == ServeSnapshot ==> !force && snapshot.Some? && snapshot.value.includeDetails == includeDetails
    ensures d == ServeRateLimited ==> force && snapshot.Some? && now - lastForceAt < minForceInterval
    ensures snapshot.None? ==> d == Scrape
  {
    var valid := snapshot.Some? && now - snapshotTs < ttl && snapshot.value.includeDetails == includeDetails;
    if !force && valid then ServeSnapshot
    else if force && now - lastForceAt < minForceInterval && snapshot.Some? then ServeRateLimited
    else Scrape
  }

  class Supervisor {
    var snapshot: Option<Snapshot>
    /** `homepageCacheTs`. */
    var snapshotTs: int
    var lastForceAt: int
    /** `HOME_CACHE_TTL_MS` and `HOME_MIN_FORCE_INTERVAL_MS`, read once at start-up. */
    const ttl: int
    const minForceInterval: int

    constructor (ttl: Option<int>, minForceInterval: Option<int>)
      ensures snapshot == None && snapshotTs == 0 && lastForceAt == 0
      ensures this.ttl == ttl.GetOr(DEFAULT_HOMEPAGE_TTL)
      ensures this.minForceInterval == minForceInterval.GetOr(DEFAULT_MIN_FORCE_INTERVAL)
    {
      snapshot := None;
      snapshotTs := 0;
      lastForceAt := 0;
      this.ttl := ttl.GetOr(DEFAULT_HOMEPAGE_TTL);
      this.minForceInterval := minForceInterval.GetOr(DEFAULT_MIN_FORCE_INTERVAL);
    }

    /** `getHomepageCached(includeDetails, force)`: `now` is the clock on
        entry, `scrape` what `scrapeHomepage` would settle with, `doneAt` the
        clock after it.  `scraped` tells whether the scrape was started;
        `Err` is a rejection. */
    method GetHomepageCached(includeDetails: bool, force: bool, now: int,
                             scrape: Result<Homepage, string>, doneAt: int)
      returns (r: Result<Reply, string>, scraped: bool)
      modifies this
      ensures var d := Decide(old(snapshot), old(snapshotTs), old(lastForceAt), ttl, minForceInterval, includeDetails, force, now);
        scraped <==> d == Scrape
      ensures !scraped ==>
        snapshot == old(snapshot) && snapshotTs == old(snapshotTs) && lastForceAt == old(lastForceAt) &&
        r == Ok(Reply(old(snapshot).value.value, old(snapshot).value.timestamp, force, None))
      ensures scraped ==> lastForceAt == (if force then now else old(lastForceAt))
      ensures scraped && scrape.Ok? ==>
        snapshot == Some(Snapshot(scrape.value, doneAt, includeDetails)) && snapshotTs == doneAt &&
        r == Ok(Reply(scrape.value, doneAt, false, None))
      ensures scraped && scrape.Err? ==>
        snapshot == old(snapshot) && snapshotTs == old(snapshotTs) &&
        r == (if old(snapshot).Some?
              then Ok(Reply(old(snapshot).value.value, old(snapshot).value.timestamp, false, Some(scrape.error)))
              else Err(scrape.error))
    {
      var keyTs := snapshotTs;
      var isValid := snapshot.Some? && now - keyTs < ttl && snapshot.value.includeDetails == includeDetails;
      if !force && isValid {
        return Ok(Reply(snapshot.value.value, snapshot.value.timestamp, false, None)), false;
      }
      if force && now - lastForceAt < minForceInterval {
        if snapshot.Some? {
          return Ok(Reply(snapshot.value.value, snapshot.value.timestamp, true, None)), false;
        }
      }
      scraped := true;
      lastForceAt := if force then now else lastForceAt;
      match scrape {
        case Ok(res) =>
          snapshot := Some(Snapshot(res, doneAt, includeDetails));
          snapshotTs := doneAt;
          r := Ok(Reply(res, doneAt, false, None));
        case Err(e) =>
          if snapshot.Some? {
            r := Ok(Reply(snapshot.value.value, snapshot.value.timestamp, false, Some(e)));
          } else {
            r := Err(e);
          }
      }
    }
  }

  /** A successful scrape is served to every non-forced call for the same
      variant until the TTL has passed (for a positive TTL). */
  lemma {:induction false} FreshSnapshotIsServed(value: Homepage, doneAt: int, lastForceAt: int, ttl: int, minForceInterval: int,
                                                 includeDetails: bool, now: int)
    requires doneAt <= now < doneAt + ttl
    ensures Decide(Some(Snapshot(value, doneAt, includeDetails)), doneAt, lastForceAt, ttl, minForceInterval,
                   includeDetails, false, now) == ServeSnapshot
  {
  }

  /** One slot for both variants: a non-forced call for the other variant
      always scrapes, however fresh the snapshot. */
  lemma {:induction false} OtherVariantScrapes(snap: Snapshot, snapshotTs: int, lastForceAt: int, ttl: int, minForceInterval: int, now: int)
    ensures Decide(Some(snap), snapshotTs, lastForceAt, ttl, minForceInterval, !snap.includeDetails, false, now) == Scrape
  {
  }

  /** A forced call within the interval after a forced scrape does not reach
      the origin while a snapshot exists, whichever variant it holds. */
  lemma {:induction false} ForcedRefreshIsRateLimited(snap: Snapshot, snapshotTs: int, lastForceAt: int, ttl: int, minForceInterval: int,
                                                      includeDetails: bool, now: int)
    requires lastForceAt <= now < lastForceAt + minForceInterval
    ensures Decide(Some(snap), snapshotTs, lastForceAt, ttl, minForceInterval, includeDetails, true, now) == ServeRateLimited
  {
  }
}
