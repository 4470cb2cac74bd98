/** `GET /schedule`: answers with this week's airing schedule, reusing a
    stored copy younger than six hours, otherwise scraping afresh, storing
    the scrape unless it is an empty or error payload, and deleting stored
    weeks older than four weeks.  The MongoDB collection is a class whose
    map from week id to record the route updates in place. */
module ScheduleRoute {
  import opened Wrappers
  import opened Text

  const SIX_HOURS: int := 6 * 60 * 60 * 1000
  const FOUR_WEEKS: int := 28 * 24 * 60 * 60 * 1000
  /** The `extraction_time_seconds` reported for a stored copy. */
  const CACHED_SECONDS: real := 0.001
  /** The day the scraper gives its single item when it fails. */
  const ERROR_DAY: string := "Error"

  /** One airing, as the scraper produces it and as the route answers it. */
  datatype ScheduleItem = ScheduleItem(day: string, anime: string, time: string)

  /** One airing as stored: the same three fields plus whatever else the
      stored document carries (generated ids, timestamps). */
  datatype StoredItem = StoredItem(day: string, anime: string, time: string, meta: map<string, string>)

  /** A stored week. */
  datatype Record = Record(data: seq<StoredItem>, seconds: real, totalEpisodes: nat, lastUpdated: int)

  /** The readings of the clock the route takes: on entry, in the lookup
      query, after the scrape, when saving, when computing the clean-up
      cut-off, and in the error handler. */
  datatype Clock = Clock(start: int, query: int, done: int, saved: int, cleanup: int, caught: int)

  /** The error each database query of the route throws, `None` when it
      succeeds: the lookup, the upsert and the clean-up. */
  datatype DbFaults = DbFaults(find: Option<string>, upsert: Option<string>, delete: Option<string>)

  datatype ScheduleResponse =
    | Cached(data: seq<ScheduleItem>, seconds: real, weekId: string, lastUpdated: int, totalEpisodes: nat)
    | Fresh(data: seq<ScheduleItem>, seconds: real, weekId: string, totalEpisodes: nat, savedToDb: bool)
    | Failed(error: string, seconds: real)

  function Status(r: ScheduleResponse): (code: int)
    ensures code == 500 <==> r.Failed?
    ensures code == 200 <==> !r.Failed?
  {
    if r.Failed? then 500 else 200
  }

  /** Milliseconds between two clock readings, in seconds. */
  function Seconds(from: int, to: int): real {
    (to - from) as real / 1000.0
  }

  // ------------------------------------------------------------- week id

  /** `String(n).padStart(2, '0')`. */
  function PadTwo(n: nat): (r: string)
    ensures |r| >= 2
    ensures forall i :: 0 <= i < |r| ==> IsDigit(r[i])
  {
    var s := NatToString(n);
    if |s| < 2 then "0" + s else s
  }

  /** A leading zero does not change a decimal value. */
  lemma {:induction false} LeadingZero(s: string)
    requires forall i :: 0 <= i < |s| ==> IsDigit(s[i])
    ensures DecimalValue("0" + s) == DecimalValue(s)
    decreases |s|
  {
    if s != [] {
      var z := "0" + s;
      assert z[..|z| - 1] == "0" + s[..|s| - 1];
      assert z[|z| - 1] == s[|s| - 1];
      LeadingZero(s[..|s| - 1]);
    }
  }

  /** The padded number reads back as the number. */
  lemma PadTwoRoundTrip(n: nat)
    ensures DecimalValue(PadTwo(n)) == n
  {
    DecimalRoundTrip(n);
    LeadingZero(NatToString(n));
  }

  /** `<year>-W<week>`, the week zero-padded to two digits; the week number
      itself is computed from the local date and is an input here. */
  function WeekId(year: nat, week: nat): (id: string)
    ensures |id| >= |NatToString(year)| + 4
    ensures id[..|NatToString(year)|] == NatToString(year)
    ensures id[|NatToString(year)|..|NatToString(year)| + 2] == "-W"
    ensures id[|NatToString(year)| + 2..] == PadTwo(week)
  {
    NatToString(year) + "-W" + PadTwo(week)
  }

  /** The digits in front of a non-digit are the leading digit run. */
  lemma DigitsBeforeSeparator(a: string, rest: string)
    requires forall i :: 0 <= i < |a| ==> IsDigit(a[i])
    requires rest != [] && !IsDigit(rest[0])
    ensures LeadingDigits(a + rest) == a
  {
    var s := a + rest;
    var r := LeadingDigits(s);
    assert s[|a|] == rest[0];
    assert s[..|a|] == a;
  }

  lemma NatToStringInjective(x: nat, y: nat)
    requires NatToString(x) == NatToString(y)
    ensures x == y
  {
    DecimalRoundTrip(x);
    DecimalRoundTrip(y);
  }

  lemma PadTwoInjective(x: nat, y: nat)
    requires PadTwo(x) == PadTwo(y)
    ensures x == y
  {
    PadTwoRoundTrip(x);
    PadTwoRoundTrip(y);
  }

  lemma DigitsBeforeWeekMark(a: string, p: string)
    requires forall i :: 0 <= i < |a| ==> IsDigit(a[i])
    ensures LeadingDigits(a + "-W" + p) == a
  {
    DigitsBeforeSeparator(a, "-W" + p);
    assert a + "-W" + p == a + ("-W" + p);
  }

  /** The year is the leading digit run of the week id. */
  lemma WeekIdYear(year: nat, week: nat)
    ensures LeadingDigits(WeekId(year, week)) == NatToString(year)
  {
    DigitsBeforeWeekMark(NatToString(year), PadTwo(week));
  }

  /** Different weeks get different ids, so the store keeps one record per
      week. */
  lemma WeekIdsDistinct(y1: nat, w1: nat, y2: nat, w2: nat)
    ensures WeekId(y1, w1) == WeekId(y2, w2) ==> y1 == y2 && w1 == w2
  {
    if WeekId(y1, w1) == WeekId(y2, w2) {
      WeekIdYear(y1, w1);
      WeekIdYear(y2, w2);
      NatToStringInjective(y1, y2);
      PadTwoInjective(w1, w2);
    }
  }

  // ----------------------------------------------------- payload verdict

  /** The days of a scrape, in order. */
  function ScrapedDays(data: seq<ScheduleItem>): (days: seq<string>)
    ensures |days| == |data|
    ensures forall i :: 0 <= i < |data| ==> days[i] == data[i].day
  {
    seq(|data|, i requires 0 <= i < |data| => data[i].day)
  }

  /** The days of a stored week, in order. */
  function StoredDays(data: seq<StoredItem>): (days: seq<string>)
    ensures |days| == |data|
    ensures forall i :: 0 <= i < |data| ==> days[i] == data[i].day
  {
    seq(|data|, i requires 0 <= i < |data| => data[i].day)
  }

  /** The test the route applies both to a stored week and to a fresh
      scrape: nothing, or only the scraper's single error item. */
  predicate IsEmptyOrError(days: seq<string>) {
    |days| == 0 || (|days| == 1 && days[0] == ERROR_DAY)
  }

  /** The answer for a stored week: each item cut down to day, anime and
      time, in the stored order. */
  function Project(data: seq<StoredItem>): (r: seq<ScheduleItem>)
    ensures |r| == |data|
    ensures forall i :: 0 <= i < |data| ==> r[i] == ScheduleItem(data[i].day, data[i].anime, data[i].time)
  {
    seq(|data|, i requires 0 <= i < |data| => ScheduleItem(data[i].day, data[i].anime, data[i].time))
  }

  /** The stored form of a scrape; the generated ids and timestamps are not
      modelled. */
  function Stored(data: seq<ScheduleItem>): (r: seq<StoredItem>)
    ensures |r| == |data|
    ensures forall i :: 0 <= i < |data| ==> r[i] == StoredItem(data[i].day, data[i].anime, data[i].time, map[])
  {
    seq(|data|, i requires 0 <= i < |data| => StoredItem(data[i].day, data[i].anime, data[i].time, map[]))
  }

  /** Projection keeps every day, so a stored week and its answer get the
      same verdict. */
  lemma ProjectKeepsDays(data: seq<StoredItem>)
    ensures ScrapedDays(Project(data)) == StoredDays(data)
  {
  }

  /** Storing a scrape keeps its days and reads back as the scrape. */
  lemma StoredRoundTrip(data: seq<ScheduleItem>)
    ensures StoredDays(Stored(data)) == ScrapedDays(data)
    ensures Project(Stored(data)) == data
  {
  }

  // ---------------------------------------------------------------- store

  /** `deleteMany({ last_updated: { $lt: cutoff } })`. */
  function Cleaned(records: map<string, Record>, cutoff: int): (r: map<string, Record>)
    ensures forall k :: k in r <==> k in records && records[k].lastUpdated >= cutoff
    ensures forall k :: k in r ==> r[k] == records[k]
  {
    map k | k in records && records[k].lastUpdated >= cutoff :: records[k]
  }

  /** The store after the save step: the week is upserted unless the
      scrape is an empty or error payload. */
  function Saved(records: map<string, Record>, weekId: string, scraped: seq<ScheduleItem>,
                 seconds: real, savedAt: int): (r: map<string, Record>)
    ensures forall k :: k != weekId ==> (k in r <==> k in records)
    ensures forall k :: k != weekId && k in r ==> r[k] == records[k]
  {
    if IsEmptyOrError(ScrapedDays(scraped)) then records
    else records[weekId := Record(Stored(scraped), seconds, |scraped|, savedAt)]
  }

  /** The store after a fresh scrape: saved, then old weeks are deleted. */
  function AfterScrape(records: map<string, Record>, weekId: string, scraped: seq<ScheduleItem>,
                       seconds: real, savedAt: int, cutoff: int): map<string, Record>
  {
    Cleaned(Saved(records, weekId, scraped, seconds, savedAt), cutoff)
  }

  /** No stored week is empty or an error payload. */
  ghost predicate NoErrorRecords(records: map<string, Record>) {
    forall k :: k in records ==> !IsEmptyOrError(StoredDays(records[k].data))
  }

  /** An empty or error scrape is never written: the store only loses its
      old weeks. */
  lemma ErrorPayloadNotSaved(records: map<string, Record>, weekId: string, scraped: seq<ScheduleItem>,
                             seconds: real, savedAt: int, cutoff: int)
    requires IsEmptyOrError(ScrapedDays(scraped))
    ensures AfterScrape(records, weekId, scraped, seconds, savedAt, cutoff) == Cleaned(records, cutoff)
  {
  }

  /** Any other scrape is stored under its week with its own length as the
      episode count, and survives the clean-up that follows it. */
  lemma GoodPayloadSaved(records: map<string, Record>, weekId: string, scraped: seq<ScheduleItem>,
                         seconds: real, savedAt: int, cutoff: int)
    requires !IsEmptyOrError(ScrapedDays(scraped)) && savedAt >= cutoff
    ensures var r := AfterScrape(records, weekId, scraped, seconds, savedAt, cutoff);
      weekId in r && r[weekId] == Record(Stored(scraped), seconds, |scraped|, savedAt)
  {
  }

  /** The save policy keeps error payloads out of a store that had none. */
  lemma SavedKeepsStoreClean(records: map<string, Record>, weekId: string, scraped: seq<ScheduleItem>,
                             seconds: real, savedAt: int)
    ensures NoErrorRecords(records) ==> NoErrorRecords(Saved(records, weekId, scraped, seconds, savedAt))
  {
    StoredRoundTrip(scraped);
  }

  /** So does the whole scrape step, clean-up included. */
  lemma AfterScrapeKeepsStoreClean(records: map<string, Record>, weekId: string, scraped: seq<ScheduleItem>,
                                   seconds: real, savedAt: int, cutoff: int)
    ensures NoErrorRecords(records) ==> NoErrorRecords(AfterScrape(records, weekId, scraped, seconds, savedAt, cutoff))
  {
    SavedKeepsStoreClean(records, weekId, scraped, seconds, savedAt);
  }

  /** After the clean-up no stored week is older than the cut-off. */
  lemma AfterScrapeIsRecent(records: map<string, Record>, weekId: string, scraped: seq<ScheduleItem>,
                            seconds: real, savedAt: int, cutoff: int)
    ensures var r := AfterScrape(records, weekId, scraped, seconds, savedAt, cutoff);
      forall k :: k in r ==> r[k].lastUpdated >= cutoff
  {
  }

  /** The stored week the route may answer with: one for this week younger
      than six hours that is not empty or an error payload. */
  predicate Reusable(records: map<string, Record>, weekId: string, query: int) {
    weekId in records && records[weekId].lastUpdated >= query - SIX_HOURS &&
    !IsEmptyOrError(StoredDays(records[weekId].data))
  }

  /** The schedules collection. */
  class ScheduleStore {
    var records: map<string, Record>

    constructor ()
      ensures records == map[]
    {
      records := map[];
    }

    /** The route handler, once the database connection is up; `faults`
        are the errors of its queries and `scraped` is what the scraper
        returns.  A query that throws ends the handler with a 500 answer,
        and a failed write changes nothing. */
    method GetSchedule(year: nat, week: nat, clock: Clock, faults: DbFaults,
                       scraped: seq<ScheduleItem>) returns (resp: ScheduleResponse)
      modifies this
      ensures faults.find.Some? ==>
        resp == Failed(faults.find.value, Seconds(clock.start, clock.caught)) && records == old(records)
      ensures faults.find.None? && Reusable(old(records), WeekId(year, week), clock.query) ==>
        var rec := old(records)[WeekId(year, week)];
        resp == Cached(Project(rec.data), CACHED_SECONDS, WeekId(year, week), rec.lastUpdated, rec.totalEpisodes) &&
        records == old(records)
      ensures faults.find.None? && !Reusable(old(records), WeekId(year, week), clock.query) &&
              !IsEmptyOrError(ScrapedDays(scraped)) && faults.upsert.Some? ==>
        resp == Failed(faults.upsert.value, Seconds(clock.start, clock.caught)) && records == old(records)
      ensures faults.find.None? && !Reusable(old(records), WeekId(year, week), clock.query) &&
              (IsEmptyOrError(ScrapedDays(scraped)) || faults.upsert.None?) && faults.delete.Some? ==>
        resp == Failed(faults.delete.value, Seconds(clock.start, clock.caught)) &&
        records == Saved(old(records), WeekId(year, week), scraped, Seconds(clock.start, clock.done), clock.saved)
      ensures faults.find.None? && !Reusable(old(records), WeekId(year, week), clock.query) &&
              (IsEmptyOrError(ScrapedDays(scraped)) || faults.upsert.None?) && faults.delete.None? ==>
        resp == Fresh(scraped, Seconds(clock.start, clock.done), WeekId(year, week), |scraped|,
                      !IsEmptyOrError(ScrapedDays(scraped))) &&
        records == AfterScrape(old(records), WeekId(year, week), scraped,
                               Seconds(clock.start, clock.done), clock.saved, clock.cleanup - FOUR_WEEKS)
      ensures NoErrorRecords(old(records)) ==> NoErrorRecords(records)
    {
      if faults.find.Some? {
        return Failed(faults.find.value, Seconds(clock.start, clock.caught));
      }
      var weekId := WeekId(year, week);
      if weekId in records && records[weekId].lastUpdated >= clock.query - SIX_HOURS {
        var existing := records[weekId];
        if !IsEmptyOrError(StoredDays(existing.data)) {
          return Cached(Project(existing.data), CACHED_SECONDS, weekId, existing.lastUpdated, existing.totalEpisodes);
        }
      }
      var duration := Seconds(clock.start, clock.done);
      var isScrapeError := IsEmptyOrError(ScrapedDays(scraped));
      if !isScrapeError {
        if faults.upsert.Some? {
          return Failed(faults.upsert.value, Seconds(clock.start, clock.caught));
        }
        records := records[weekId := Record(Stored(scraped), duration, |scraped|, clock.saved)];
      }
      SavedKeepsStoreClean(old(records), weekId, scraped, duration, clock.saved);
      if faults.delete.Some? {
        return Failed(faults.delete.value, Seconds(clock.start, clock.caught));
      }
      records := Cleaned(records, clock.cleanup - FOUR_WEEKS);
      AfterScrapeKeepsStoreClean(old(records), weekId, scraped, duration, clock.saved, clock.cleanup - FOUR_WEEKS);
      return Fresh(scraped, duration, weekId, |scraped|, !isScrapeError);
    }
  }

  /** A stored copy the route answers with is never empty or an error
      payload, and reports the stored episode count. */
  lemma CachedAnswerIsNeverError(records: map<string, Record>, weekId: string, query: int)
    requires Reusable(records, weekId, query)
    ensures !IsEmptyOrError(ScrapedDays(Project(records[weekId].data)))
  {
    ProjectKeepsDays(records[weekId].data);
  }
}
