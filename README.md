# Scraper API core, modelled in Dafny

This project models the core of the Shirayuki scraper API, an Express service
that scrapes anime listings from 123anime and HiAnime. It models the caches,
the list rules and the route decisions of that service, and proves what they
promise.

- **Caches.**
  - The process-wide TTL cache is the `Registry` class, with one `Namespace`
    object per name. Entries expire lazily when they are read.
  - The homepage aggregator has a per-site result cache with bulk eviction, a
    merge that numbers records per section, and a supervisor. The supervisor
    keeps one homepage snapshot with a TTL, a limit on forced refreshes and a
    stale fallback.
  - The document fetcher has a thirty-second response cache, swept once it
    grows past fifty entries.
  - The single-episode scrape cache and the availability cache shared by the
    overrated and underrated builders are modelled too.
- **List rules.**
  - The bounded-concurrency mapper is modelled as one sequential claim loop.
  - The seen-set deduplication is shared by the homepage merge, the widgets
    and the recent-updates route.
  - Leaderboard passes stop at ten distinct titles and key their entries 1..n.
  - The over- and underrated builders select in batches of three and stop at
    five picks.
  - Numbering is by position and by day.
- **String rules.**
  - Kana-to-romaji conversion.
  - Title slugs and compare-normalisation.
  - The "(Dub)" rewrites.
  - Poster-image and file-name rules.
  - `encodeURIComponent`.
  - Episode-URL parsing and the streaming-link filter.
- **Routes.**
  - Genre pagination.
  - Watch and episode-stream validation.
  - The weekly schedule, with its error-payload predicate, save policy and
    clean-up. The schedule store is a class over a map from week id to record.
  - Per-day numbering of the stored schedule.

Network requests, the browser, cheerio selectors, the database driver and the
clock are parameters of the model. Each operation takes the outcome of those
calls as input: a body or an error, the extracted fields of each matched
element, and `now` in milliseconds. Where the source updates state in place,
the model is a class whose methods state the whole new state. Its loops are
methods proved against specification functions, and lemmas relate those
functions to what the source promises.

## Model

| member | source | states |
|---|---|---|
| SimpleCache.Namespace.Set | extracted-files/Shirayuki-Scrapper-API-V1-main/service/simpleCache.js:9-12 | stores the value under the key with expiry `now + ttl` for a positive TTL (the namespace default when omitted) and 0, meaning never, otherwise; no other key changes |
| SimpleCache.Namespace.Get | extracted-files/Shirayuki-Scrapper-API-V1-main/service/simpleCache.js:14-22 | answers the stored value exactly when the key is present and not expired (expiry inclusive of `expiresAt`), and deletes an expired entry |
| SimpleCache.Namespace.Has | extracted-files/Shirayuki-Scrapper-API-V1-main/service/simpleCache.js:24-32 | true exactly when `get` would find a value; deletes an expired entry the same way |
| SimpleCache.Namespace.Del | extracted-files/Shirayuki-Scrapper-API-V1-main/service/simpleCache.js:34 | removes the key and nothing else |
| SimpleCache.Registry.CreateNamespace | extracted-files/Shirayuki-Scrapper-API-V1-main/service/simpleCache.js:3-5 | get-or-create: a known name returns the registered namespace unchanged (its default TTL kept); a new name gets a fresh empty namespace with the given default (0 when omitted); every namespace stays registered under its own name |
| SimpleCache.NamesAreDistinctNamespaces | extracted-files/Shirayuki-Scrapper-API-V1-main/service/simpleCache.js:36-38 | two different registered names never share a namespace object |
| SimpleCache.SetThenLookup | extracted-files/Shirayuki-Scrapper-API-V1-main/service/simpleCache.js:9-22 | after `set`, `get` serves the value strictly before `setAt + ttl`, and forever for a TTL of zero or less |
| SimpleCache.ExpiredReadIsFinal | extracted-files/Shirayuki-Scrapper-API-V1-main/service/simpleCache.js:17-19 | once a read finds the entry expired, every later read misses |
| SimpleCache.OtherKeysUntouched | extracted-files/Shirayuki-Scrapper-API-V1-main/service/simpleCache.js:9-34 | `set`, `del` and a read leave every other key's answer unchanged |
| ScraperService.ResolveFallback | service/scraperService.js:38-42 | when URL parsing throws: "//x" gets "https:" in front, "/x" gets the base in front, anything else is kept; the result always ends with the input |
| ScraperService.ResolveUrl | service/scraperService.js:33-44 | empty input gives null and only it does; a parsable input gives the parsed href; otherwise the fallback |
| ScraperService.ErrorFor | service/scraperService.js:75-81 | ECONNABORTED and ETIMEDOUT, and only they, become the timeout error with its message; a non-2xx response is rethrown with its status |
| ScraperService.ResponseCache.FetchAndLoad | service/scraperService.js:46-82 | a cached body younger than 30 s is served without a request; otherwise the request is made, a 2xx body is cached at `now` and the cache swept once it holds more than 50 entries; a failure changes nothing and returns the mapped error |
| ScraperService.ResponseCache.Sweep | service/scraperService.js:66-72 | deletes exactly the entries older than 30 s and keeps all others unchanged |
| ScraperService.InsertedBodySurvives | service/scraperService.js:59-72 | the body just stored survives the sweep that follows it and is fresh |
| ScraperService.SweepLeavesNoStaleEntry | service/scraperService.js:66-72 | after a sweep no stale entry remains and every fresh entry is still there |
| Dedup.DedupLoop | extracted-files/Shirayuki-Scrapper-API-V1-main/scrapeanime/homepage/scrapeservice.js:89-100 | the seen-set loop returns exactly the first-by-key filtering of its input (the specification function FirstByKey) |
| Dedup.FirstByKeyDistinct | extracted-files/Shirayuki-Scrapper-API-V1-main/scrapeanime/homepage/scrapeservice.js:124-135 | every kept item passes the filter, and no two kept items share a key |
| Dedup.FirstByKeyKeepsFirst | extracted-files/Shirayuki-Scrapper-API-V1-main/scrapeanime/homepage/scrapeservice.js:124-135 | for every item that passes the filter, an item with the same key that occurs at or before it is kept: the first occurrence wins |
| Dedup.FirstByKeyFromInput | extracted-files/Shirayuki-Scrapper-API-V1-main/scrapeanime/homepage/scrapeservice.js:124-135 | every kept item is one of the inputs |
| Dedup.FirstByKeyIsSubsequence | extracted-files/Shirayuki-Scrapper-API-V1-main/scrapeanime/homepage/scrapeservice.js:124-135 | the output is the input with some items left out, in the original order |
| Dedup.FirstByKeyLength | extracted-files/Shirayuki-Scrapper-API-V1-main/scrapeanime/homepage/scrapeservice.js:124-135 | the output is never longer than the input |
| Dedup.FirstByKeyAppend | extracted-files/Shirayuki-Scrapper-API-V1-main/scrapeanime/homepage/scrapeservice.js:124-135 | filtering a concatenation filters the first part, then the second with the first part's keys already seen |
| Dedup.HrefTitleKey | extracted-files/Shirayuki-Scrapper-API-V1-main/scrapeanime/homepage/Ongoing/ongoing.js:147 | the lower-cased "href::title" key has the two fields' lengths plus two, with "::" right after the href |
| Dedup.HrefTitleKeyIgnoresCase | extracted-files/Shirayuki-Scrapper-API-V1-main/scrapeanime/homepage/Ongoing/ongoing.js:147 | items whose href and title agree up to ASCII case share a key |
| Homepage.ContentKey | extracted-files/Shirayuki-Scrapper-API-V1-main/scrapeanime/homepage/scrapeservice.js:92 | the key is empty exactly when href, title and image are all empty; otherwise it is the lower-cased first non-empty one of href and title, in that order |
| Homepage.CacheKeyInjective | extracted-files/Shirayuki-Scrapper-API-V1-main/scrapeanime/homepage/scrapeservice.js:11-13 | two different (url, includeDetails) pairs never share a cache key |
| Homepage.SetCacheBoundAndSurvival | extracted-files/Shirayuki-Scrapper-API-V1-main/scrapeanime/homepage/scrapeservice.js:23-33 | after `setCache` the cache holds at most 10 keys without repeats, and the key just written is one of them |
| Homepage.SiteCache.SetCache | extracted-files/Shirayuki-Scrapper-API-V1-main/scrapeanime/homepage/scrapeservice.js:23-33 | the key goes last in insertion order (an existing key keeps its place), then the five oldest keys are dropped once there are more than 10; the new entry is stored with timestamp `now` |
| Homepage.SiteCache.EvictOldestKeys | extracted-files/Shirayuki-Scrapper-API-V1-main/scrapeanime/homepage/scrapeservice.js:29-32 | deletes the first five keys in insertion order and their entries, and nothing else |
| Homepage.SiteCache.ScrapeSite | extracted-files/Shirayuki-Scrapper-API-V1-main/scrapeanime/homepage/scrapeservice.js:35-105 | a cached result younger than two minutes is returned unchanged; a failed fetch propagates; otherwise the gathered items are deduplicated by content key and section, cached under the key and returned |
| Homepage.SliderPlacement | extracted-files/Shirayuki-Scrapper-API-V1-main/scrapeanime/homepage/scrapeservice.js:49-87 | the slider is pushed first for hianime, never for 123anime, and for other sites only after the extractors while fewer than 50 items are held |
| Homepage.SourceErrors | extracted-files/Shirayuki-Scrapper-API-V1-main/scrapeanime/homepage/scrapeservice.js:118-122 | one error per rejected site, hianime's first |
| Homepage.SectionTotals | extracted-files/Shirayuki-Scrapper-API-V1-main/scrapeanime/homepage/scrapeservice.js:137-141 | the totals map holds exactly the sections present, each with its number of records |
| Homepage.IndexBySection | extracted-files/Shirayuki-Scrapper-API-V1-main/scrapeanime/homepage/scrapeservice.js:143-148 | each record gets its rank within its section, counting from 1, unless it already carries an `index` |
| Homepage.BuildHomepage | extracted-files/Shirayuki-Scrapper-API-V1-main/scrapeanime/homepage/scrapeservice.js:107-153 | the merge deduplicates the combined records by content key and section, numbers them per section, totals the sections, reports total = number of records, and adds `errors` only when a site failed |
| Homepage.SectionNumbering | extracted-files/Shirayuki-Scrapper-API-V1-main/scrapeanime/homepage/scrapeservice.js:143-148 | within a section the numbers lie between 1 and the section total and strictly increase in list order |
| Homepage.PositionIsCountBefore | extracted-files/Shirayuki-Scrapper-API-V1-main/scrapeanime/homepage/scrapeservice.js:144-147 | a record's number is one more than the records of its section before it |
| Homepage.MergedRecordsAreDistinct | extracted-files/Shirayuki-Scrapper-API-V1-main/scrapeanime/homepage/scrapeservice.js:124-135 | every merged record has a content key, no two share content key and section, and each comes from the combined input |
| Homepage.OneSiteDown | extracted-files/Shirayuki-Scrapper-API-V1-main/scrapeanime/homepage/scrapeservice.js:115-122 | when hianime fails, 123anime's records are the whole merge input and hianime's failure is the only error |
| Homepage.ScrapeSectionAcrossSites | extracted-files/Shirayuki-Scrapper-API-V1-main/scrapeanime/homepage/scrapeservice.js:210-249 | deduplicates the combined records by content key alone and adds `errors` only when a site failed |
| Homepage.SectionMergeIgnoresSection | extracted-files/Shirayuki-Scrapper-API-V1-main/scrapeanime/homepage/scrapeservice.js:235-244 | no two records of the cross-site section merge share a content key, whatever their sections |
| Homepage.Decide | extracted-files/Shirayuki-Scrapper-API-V1-main/scrapeanime/homepage/scrapeservice.js:167-181 | the snapshot is served only to an unforced call for the same variant; the rate-limited answer only to a forced call within the interval while a snapshot exists; with no snapshot the call always scrapes |
| Homepage.Supervisor.GetHomepageCached | extracted-files/Shirayuki-Scrapper-API-V1-main/scrapeanime/homepage/scrapeservice.js:167-193 | serves the snapshot (marked rate-limited on a forced call) without scraping, or scrapes: records the forced-call time, replaces the snapshot on success, and on failure falls back to the old snapshot with the error or rejects when there is none |
| Homepage.FreshSnapshotIsServed | extracted-files/Shirayuki-Scrapper-API-V1-main/scrapeanime/homepage/scrapeservice.js:169-172 | a snapshot is served to unforced calls of its variant until the TTL has passed |
| Homepage.OtherVariantScrapes | extracted-files/Shirayuki-Scrapper-API-V1-main/scrapeanime/homepage/scrapeservice.js:169 | the single slot means an unforced call for the other variant always scrapes |
| Homepage.ForcedRefreshIsRateLimited | extracted-files/Shirayuki-Scrapper-API-V1-main/scrapeanime/homepage/scrapeservice.js:176-180 | a forced call within the interval after the last forced scrape is answered from the snapshot |
| Concurrency.Settle | extracted-files/Shirayuki-Scrapper-API-V1-main/scrapeanime/homepage/recently_updated/recentlyUpdated_dub.js:11-15 | a claimed cell holds the mapper's value, or `null` exactly when the mapper throws; it is never left a hole |
| Concurrency.WorkerCount | extracted-files/Shirayuki-Scrapper-API-V1-main/scrapeanime/homepage/recently_updated/recentlyUpdated_dub.js:18-19 | at most one worker per list element, and none exactly when the limit is zero or less or the list is empty |
| Concurrency.MapWithConcurrency | extracted-files/Shirayuki-Scrapper-API-V1-main/scrapeanime/homepage/recently_updated/recentlyUpdated_dub.js:4-22 | the result has the input's length; with at least one worker the indices are claimed once each in order 0..n-1, cell i holds the mapper's outcome for element i and no cell is left a hole; with none every cell stays a hole |
| RecentlyUpdatedDub.Episode | extracted-files/Shirayuki-Scrapper-API-V1-main/scrapeanime/homepage/recently_updated/recentlyUpdated_dub.js:66-72 | the episode is absent when there is no status or its text has no digit, and is read from the first digit run otherwise |
| RecentlyUpdatedDub.CollectWidget | extracted-files/Shirayuki-Scrapper-API-V1-main/scrapeanime/homepage/recently_updated/recentlyUpdated_dub.js:45-96 | the inner loop pushes, in card order, an entry for each of the first fifteen cards with an href or a non-blank title |
| RecentlyUpdatedDub.CollectItems | extracted-files/Shirayuki-Scrapper-API-V1-main/scrapeanime/homepage/recently_updated/recentlyUpdated_dub.js:40-97 | the outer loop concatenates the widgets' entries in page order, skipping widgets without a dub tab |
| RecentlyUpdatedDub.CollectedBound | extracted-files/Shirayuki-Scrapper-API-V1-main/scrapeanime/homepage/recently_updated/recentlyUpdated_dub.js:45 | no widget contributes more than fifteen entries |
| RecentlyUpdatedDub.DedupedShape | extracted-files/Shirayuki-Scrapper-API-V1-main/scrapeanime/homepage/recently_updated/recentlyUpdated_dub.js:152-159 | the mapped list holds at most 60 entries, each with an href or a title, no two with the same lower-cased href-and-title key, all taken from the page |
| RecentlyUpdatedDub.FirstMatching | extracted-files/Shirayuki-Scrapper-API-V1-main/scrapeanime/homepage/recently_updated/recentlyUpdated_dub.js:173 | finds the first hit whose canonical title compares equal to the search term, and none exactly when no hit does |
| RecentlyUpdatedDub.BestMatch | extracted-files/Shirayuki-Scrapper-API-V1-main/scrapeanime/homepage/recently_updated/recentlyUpdated_dub.js:173-174 | the chosen hit is one of the hits |
| RecentlyUpdatedDub.EnglishTitle | extracted-files/Shirayuki-Scrapper-API-V1-main/scrapeanime/homepage/recently_updated/recentlyUpdated_dub.js:163-185 | an empty title gives null; any answer ends in " (Dub)" after a non-empty English name |
| RecentlyUpdatedDub.EnglishTitleRoundTrip | extracted-files/Shirayuki-Scrapper-API-V1-main/scrapeanime/homepage/recently_updated/recentlyUpdated_dub.js:163-190 | when the search has hits, the English title is the chosen hit's English name plus " (Dub)", and the dub-mark strip gives that name back whenever it has no "dub" of its own and no trailing space |
| RecentlyUpdatedDub.JapaneseTitleWith | extracted-files/Shirayuki-Scrapper-API-V1-main/scrapeanime/homepage/recently_updated/recentlyUpdated_dub.js:190-197 | the table's romaji when the dub-stripped, trimmed English title is a key, else the romanized scraped title |
| RecentlyUpdatedDub.TableTitleMapped | extracted-files/Shirayuki-Scrapper-API-V1-main/scrapeanime/homepage/recently_updated/recentlyUpdated_dub.js:187-197 | for a hit whose English name is a key of the table, the appended " (Dub)" is stripped again and the table's romaji becomes the Japanese title |
| RecentlyUpdatedDub.ScrapeRecentlyUpdatedDub | extracted-files/Shirayuki-Scrapper-API-V1-main/scrapeanime/homepage/recently_updated/recentlyUpdated_dub.js:37-212 | every de-duplicated entry, enriched with its English and Japanese titles, in page order |
| TitleCompare.NormalizeForCompare | extracted-files/Shirayuki-Scrapper-API-V1-main/scrapeanime/homepage/recently_updated/recentlyUpdated_dub.js:24-30 | the result holds only lower-case ASCII letters and digits, and the falsy input gives '' |
| TitleCompare.DropNoiseWordsSplit | extracted-files/Shirayuki-Scrapper-API-V1-main/scrapeanime/homepage/recently_updated/recentlyUpdated_dub.js:27 | the noise-word pass works independently on the two sides of a non-word character |
| TitleCompare.NoiseWordIgnored | extracted-files/Shirayuki-Scrapper-API-V1-main/scrapeanime/homepage/recently_updated/recentlyUpdated_dub.js:24-30 | a noise word ("dub", "sub", "season", "part", "2nd", "3rd", "4th") standing as its own word does not change the normalised title |
| DubText.FirstDubWord | extracted-files/Shirayuki-Scrapper-API-V1-main/scrapeanime/homepage/recently_updated/recentlyUpdated_dub.js:165 | finds the leftmost whole-word, case-blind "dub" from the given position, and none exactly when there is none |
| DubText.RemoveDubWord | extracted-files/Shirayuki-Scrapper-API-V1-main/scrapeanime/homepage/recently_updated/recentlyUpdated_dub.js:165 | text without a whole-word "dub" is unchanged; otherwise exactly the first such "dub" is cut |
| DubText.DubMarkLength | extracted-files/Shirayuki-Scrapper-API-V1-main/scrapeanime/homepage/recently_updated/recentlyUpdated_dub.js:190 | a match of the pattern is at least the three letters and ends with "dub", optionally followed by ")" |
| DubText.StripDubMarks | extracted-files/Shirayuki-Scrapper-API-V1-main/scrapeanime/homepage/recently_updated/recentlyUpdated_dub.js:190 | text without any "dub" is unchanged |
| DubText.SuffixIsOneMark | extracted-files/Shirayuki-Scrapper-API-V1-main/scrapeanime/homepage/recently_updated/recentlyUpdated_dub.js:178-190 | the appended " (Dub)" is one match of the pattern, and the scan ends right after it |
| DubText.DubSuffixRoundTrip | extracted-files/Shirayuki-Scrapper-API-V1-main/scrapeanime/homepage/recently_updated/recentlyUpdated_dub.js:178-190 | appending " (Dub)" and stripping the dub marks is the identity on a title with no "dub" and no trailing whitespace |
| Romanize.ConstantTablesValid | extracted-files/Shirayuki-Scrapper-API-V1-main/util/romanizeJapanese.js:5-29 | every key of the hiragana table is in the hiragana block or is the prolonged sound mark, and every digraph key is two hiragana-block characters, the first not a small tsu |
| Romanize.BuildKatakanaMap | extracted-files/Shirayuki-Scrapper-API-V1-main/util/romanizeJapanese.js:24-28 | the katakana map holds exactly the hiragana-block keys shifted by 0x60, each with the reading of the hiragana it came from |
| Romanize.BuildDigraphs | extracted-files/Shirayuki-Scrapper-API-V1-main/util/romanizeJapanese.js:29-36 | after the loop the digraph map holds exactly the original keys and their katakana copies, each copy with its original's reading |
| Romanize.ShiftedDigraph | extracted-files/Shirayuki-Scrapper-API-V1-main/util/romanizeJapanese.js:31-35 | the katakana copy of a digraph key is a new key that reads the same |
| Romanize.ConvertAt | extracted-files/Shirayuki-Scrapper-API-V1-main/util/romanizeJapanese.js:39-50 | one turn appends the digraph reading (consuming two characters), else for a small tsu the first letter of the next kana, else the hiragana reading, else the katakana reading, else the character itself |
| Romanize.ConvertLoop | extracted-files/Shirayuki-Scrapper-API-V1-main/util/romanizeJapanese.js:37-51 | the loop's output is the conversion function of the trimmed input |
| Romanize.Advance | extracted-files/Shirayuki-Scrapper-API-V1-main/util/romanizeJapanese.js:38-51 | each turn moves forward and keeps output-so-far plus conversion-of-the-rest equal to the conversion of the whole |
| Romanize.RomanizeWith | extracted-files/Shirayuki-Scrapper-API-V1-main/util/romanizeJapanese.js:1-54 | null for a missing or empty input; trimmed input when it holds an ASCII letter or digit; otherwise the tidied conversion, or null when that is empty |
| Romanize.RomanizeJapanese | extracted-files/Shirayuki-Scrapper-API-V1-main/util/romanizeJapanese.js:1-54 | the same with the source's own tables |
| Romanize.TidyShape | extracted-files/Shirayuki-Scrapper-API-V1-main/util/romanizeJapanese.js:52 | the tidied output has no two whitespace characters and no two dashes in a row |
| Romanize.TidyTrimmed | extracted-files/Shirayuki-Scrapper-API-V1-main/util/romanizeJapanese.js:52 | the tidied output starts and ends with no whitespace |
| Romanize.DigraphTakesPrecedence | extracted-files/Shirayuki-Scrapper-API-V1-main/util/romanizeJapanese.js:40 | a digraph wins over the single-kana rules and consumes both of its characters |
| Romanize.SmallTsu | extracted-files/Shirayuki-Scrapper-API-V1-main/util/romanizeJapanese.js:42-46 | a small tsu writes at most the first letter of the next kana and leaves that kana to be converted normally |
| Romanize.RomanizedNull | extracted-files/Shirayuki-Scrapper-API-V1-main/util/romanizeJapanese.js:2-53 | the result is null exactly when the input is missing or empty, or nothing is left after conversion and tidying |
| Romanize.RomanizedTrimmed | extracted-files/Shirayuki-Scrapper-API-V1-main/util/romanizeJapanese.js:3-53 | a non-null result is non-empty and has no whitespace at either end |
| Romanize.RomanizedTidy | extracted-files/Shirayuki-Scrapper-API-V1-main/util/romanizeJapanese.js:52-53 | on the kana path the result has no doubled whitespace and no "--" |
| Romanize.KatakanaAgreesWithHiragana | extracted-files/Shirayuki-Scrapper-API-V1-main/util/romanizeJapanese.js:24-49 | katakana written with the shifted code points of table kana converts exactly like the hiragana it was shifted from |
| Ongoing.SlugifyTitle | extracted-files/Shirayuki-Scrapper-API-V1-main/scrapeanime/homepage/Ongoing/ongoing.js:4-5 | a missing or empty title has no slug (null), every other title has one |
| Ongoing.SlugShape | extracted-files/Shirayuki-Scrapper-API-V1-main/scrapeanime/homepage/Ongoing/ongoing.js:8-11 | every slug consists of lower-case letters, digits and single dashes, and neither starts nor ends with a dash |
| Ongoing.TrimDashesShape | extracted-files/Shirayuki-Scrapper-API-V1-main/scrapeanime/homepage/Ongoing/ongoing.js:11 | trimming the leading and trailing dashes of a dash-collapsed string leaves a slug |
| Ongoing.Poster | extracted-files/Shirayuki-Scrapper-API-V1-main/scrapeanime/homepage/Ongoing/ongoing.js:155-158 | the poster is the poster directory plus the slug plus ".jpg" when the title has a non-empty slug, and the scraped image otherwise |
| Ongoing.PosterShape | extracted-files/Shirayuki-Scrapper-API-V1-main/scrapeanime/homepage/Ongoing/ongoing.js:155-158 | a derived poster lies under the poster directory, ends in ".jpg" and holds a non-empty slug between the two |
| Ongoing.Episode | extracted-files/Shirayuki-Scrapper-API-V1-main/scrapeanime/homepage/Ongoing/ongoing.js:57-70 | the episode label is at most four digits, taken from the watch label before the status label |
| Ongoing.CollectWidget | extracted-files/Shirayuki-Scrapper-API-V1-main/scrapeanime/homepage/Ongoing/ongoing.js:44-80 | the loop over one widget yields one entry per matched link that has an anchor, and none for a widget that is not an ongoing widget |
| Ongoing.CollectItems | extracted-files/Shirayuki-Scrapper-API-V1-main/scrapeanime/homepage/Ongoing/ongoing.js:43-81 | the loop over the page collects every ongoing widget's entries in page order |
| Ongoing.DedupedShape | extracted-files/Shirayuki-Scrapper-API-V1-main/scrapeanime/homepage/Ongoing/ongoing.js:145-152 | the list handed to the mapper holds at most 60 entries, each with an href or a title, with pairwise distinct keys, all taken from the collected entries |
| Ongoing.ScrapeOngoing | extracted-files/Shirayuki-Scrapper-API-V1-main/scrapeanime/homepage/Ongoing/ongoing.js:37-163 | a failed fetch is rethrown; otherwise the answer succeeds and its data is the de-duplicated, capped list with each entry's poster derived, in order |
| RecentUpdates.NumberedContiguous | extracted-files/Shirayuki-Scrapper-API-V1-main/routes/recent_updates.js:45 | entries that carry no index of their own are numbered 1 to n in order, and keep their title and href |
| RecentUpdates.SubCopyWins | extracted-files/Shirayuki-Scrapper-API-V1-main/routes/recent_updates.js:9-42 | the merge is the de-duplicated sub list followed only by dub entries whose key no sub entry has, so a sub entry beats a dub entry with the same key |
| RecentUpdates.RecentUpdates | extracted-files/Shirayuki-Scrapper-API-V1-main/routes/recent_updates.js:20-57 | a live cached payload is served as cached and the cache is left as it is; otherwise a scrape failure answers 500 with `String(e)` of what was thrown (for an `Error`, its name, a colon and its message), and a successful scrape answers the merged, numbered payload and stores it under recent_updates_v1 for five minutes; only the `routes` namespace may be added, and every other namespace keeps its entries |
| SingleEpisode.VerdictIgnoresCase | scrapeanime/SingleEpisode/scrapeSingleEpisode.js:154-164 | past the case-sensitive "http" prefix, two sources that agree when lower-cased get the same verdict |
| SingleEpisode.BlacklistWins | scrapeanime/SingleEpisode/scrapeSingleEpisode.js:157 | a source whose lower-cased text holds a blacklisted word is rejected whatever whitelisted word it also holds |
| SingleEpisode.FirstValid | scrapeanime/SingleEpisode/scrapeSingleEpisode.js:177-188 | the first candidate that passes the link filter is returned; none is returned exactly when no candidate passes |
| SingleEpisode.IframeSources | scrapeanime/SingleEpisode/scrapeSingleEpisode.js:183-186 | one candidate per scanned iframe, in document order |
| SingleEpisode.FindValidIframeSource | scrapeanime/SingleEpisode/scrapeSingleEpisode.js:116-193 | a found link passes the filter, and a valid priority-selector source takes precedence over the plain iframe scan |
| SingleEpisode.SafeGoto | scrapeanime/SingleEpisode/scrapeSingleEpisode.js:70-83 | navigation stops after the first attempt that loads, and after two failures reports the second failure |
| SingleEpisode.LinkOf | scrapeanime/SingleEpisode/scrapeSingleEpisode.js:109-242 | a throw of the first search's `page.evaluate` is reported, and so is one of the second search when it runs; a link settled on is valid or the polled one; the loop ends with no link exactly when both searches ran, found nothing, and the poll found nothing |
| SingleEpisode.ExtractLink | scrapeanime/SingleEpisode/scrapeSingleEpisode.js:109-242 | the loop settles on `LinkOf`'s outcome: a throwing search ends it after that attempt; the first attempt's link wins; failing that, the click-and-poll step's link; failing both, the second attempt's search decides, and at most two attempts are made |
| SingleEpisode.WordDigits | scrapeanime/SingleEpisode/scrapeSingleEpisode.js:248-249 | the leftmost match of the word, an optional "/" or "-", and digits; its capture is a non-empty run of digits, and no match means no position matches |
| SingleEpisode.TrailingDigits | scrapeanime/SingleEpisode/scrapeSingleEpisode.js:250-251 | the capture is a non-empty run of digits that ends the URL after the marker, with at most one slash after it |
| SingleEpisode.EpisodeNumber | scrapeanime/SingleEpisode/scrapeSingleEpisode.js:247-261 | the episode number is "Unknown" or a run of digits, and the "episode" pattern wins when it matches |
| SingleEpisode.EpisodeNumberInUrl | scrapeanime/SingleEpisode/scrapeSingleEpisode.js:247-261 | the episode number is "Unknown" or a piece of the episode URL |
| SingleEpisode.FindSegment | scrapeanime/SingleEpisode/scrapeSingleEpisode.js:265-266 | the index of the first segment equal to the word, or none when no segment is |
| SingleEpisode.FindSegmentAfter | scrapeanime/SingleEpisode/scrapeSingleEpisode.js:266 | the first occurrence is found past a prefix that lacks the word |
| SingleEpisode.AnimeSegment | scrapeanime/SingleEpisode/scrapeSingleEpisode.js:265-269 | the anime id, when there is one, is the non-empty segment after the first "anime" segment and holds no slash |
| SingleEpisode.AnimeTitle | scrapeanime/SingleEpisode/scrapeSingleEpisode.js:263-273 | the title keeps the id's length with every dash turned into a space, and is "Unknown Anime" when the URL has no anime id |
| SingleEpisode.Describe | scrapeanime/SingleEpisode/scrapeSingleEpisode.js:274-285 | the result carries the id, episode number and title derived from the URL, and the found link |
| SingleEpisode.DataOf | scrapeanime/SingleEpisode/scrapeSingleEpisode.js:274-278 | the `data` object carries the title, the episode number and the link of the result |
| SingleEpisode.ScrapeOutcome | scrapeanime/SingleEpisode/scrapeSingleEpisode.js:85-345 | a success describes the URL with a valid or polled link; once a navigation loads, with no throwing search and no throwing debug read, a failure is the fixed "no valid streaming iframe" error |
| SingleEpisode.LoadedPageOutcome | scrapeanime/SingleEpisode/scrapeSingleEpisode.js:107-346 | once a navigation loads the page, the scrape succeeds exactly when a link is found and then describes it; a throwing search reports its message; with no link, the debug read's throw or else the no-link error is reported |
| SingleEpisode.FirstIframeWins | scrapeanime/SingleEpisode/scrapeSingleEpisode.js:109-298 | on a loaded page, a valid iframe found by the first search is the reported link, whatever the poll or the second search would give |
| SingleEpisode.OpenAndScrape | scrapeanime/SingleEpisode/scrapeSingleEpisode.js:85-345 | the result is `ScrapeOutcome`'s; two navigation failures report the second one; a found link is valid or the polled link and is described from the URL; with no link and nothing thrown, the fixed "no valid streaming iframe" error is reported |
| SingleEpisode.ScrapeCache.ScrapeSingleEpisode | scrapeanime/SingleEpisode/scrapeSingleEpisode.js:52-352 | a live cached result is served as cached without opening the page; otherwise the page is opened, a found result is stored for five minutes, a failure leaves the cache as it is, and every stored result describes its own URL; an opened page answers exactly `ScrapeOutcome`'s success, stored, or its error, with the URL; a throw of the browser set-up on a cache miss rejects with its message and leaves the cache as it is |
| EpisodeStream.AnimeIdRoundTrip | routes/episodeStream.js:25 | the anime segment and the anime id that the episode scraper reads back from the built episode URL is the requested id, when that id is one path segment |
| EpisodeStream.HostSegments | routes/episodeStream.js:25 | the host part of the episode URL splits into its own three segments, none of them "anime" |
| EpisodeStream.DescribedId | routes/episodeStream.js:25-30 | a scrape result that describes the built episode URL names the requested id |
| EpisodeStream.DescribedTitle | routes/episodeStream.js:25-30 | the title reported for the built episode URL is the requested id with dashes turned to spaces and word starts upper-cased |
| EpisodeStream.GetEpisodeStream | routes/episodeStream.js:6-62 | a missing id or ep answers 400 with the "both required" error; a non-number or a number below 1 answers 400 with the "positive integer" error; neither 400 touches the cache; otherwise the answer echoes id and ep; a live cached result is answered with its `data` and the cache is left alone; else a scrape success is answered with its `data` and stored, and a scrape error answers 404 with that error; a rejected scrape answers 500 with its message and leaves the cache alone; the title is built from a one-segment id |
| Listing.Absolute | extracted-files/Shirayuki-Scrapper-API-V1-main/scrapeanime/A-Z/AnimeList/filter.js:18-20 | a non-empty image path becomes an http URL on the site that still ends with the original path; an empty one stays empty |
| Listing.PosterImage | extracted-files/Shirayuki-Scrapper-API-V1-main/scrapeanime/A-Z/AnimeList/filter.js:14-24 | the poster is empty or an http URL without the placeholder file name; it ends with the first set attribute; an absolute, non-placeholder attribute is kept as it is |
| AzList.DubTitleSuffix | extracted-files/Shirayuki-Scrapper-API-V1-main/scrapeanime/A-Z/AnimeList/filter.js:27 | a title ending in " Dub" counts as a dub title |
| AzList.GluedDubIsNotDubTitle | extracted-files/Shirayuki-Scrapper-API-V1-main/scrapeanime/A-Z/AnimeList/filter.js:27 | "Dub" glued onto the end of a word does not make a dub title, because the word boundary is required |
| AzList.SubDub | extracted-files/Shirayuki-Scrapper-API-V1-main/scrapeanime/A-Z/AnimeList/filter.js:29-30 | the episode text goes to dub for a dub title and to sub otherwise; at most one of the two is set, and neither is set without episode text |
| AzList.ListedOf | extracted-files/Shirayuki-Scrapper-API-V1-main/scrapeanime/A-Z/AnimeList/filter.js:11-38 | each entry has the trimmed name, the poster image, the episode text without its first "Ep " and trimmed, and sub and dub as the dub-title test decides |
| AzList.ScrapeAnimeByLetter | extracted-files/Shirayuki-Scrapper-API-V1-main/scrapeanime/A-Z/AnimeList/filter.js:8-41 | the list has one entry per matched item, in document order, each built by the shared per-item rule |
| AzList.ScrapeAnimeByGenre | extracted-files/Shirayuki-Scrapper-API-V1-main/scrapeanime/A-Z/Genre/genre.js:9-43 | the list has one entry per matched item, in document order, numbered from 1 |
| Each.EachPush | extracted-files/Shirayuki-Scrapper-API-V1-main/scrapeanime/A-Z/AnimeList/filter.js:10-39 | a callback that pushes on every element yields one value per element, in order, built from the element and its position |
| Search.FirstMatch | scrapeanime/Browse/Search/search.js:37 | the leftmost position where whitespace followed by "(dub)" in any case starts; none exactly when no position matches |
| Search.TestMeansMatch | scrapeanime/Browse/Search/search.js:36-37 | the "(Dub)" test succeeds exactly when the replacement finds a match, so the title rule never appends " (Dub)" without removing one |
| Search.MoveDub | scrapeanime/Browse/Search/search.js:35-38 | a title without "(Dub)" stays as it is; any other title ends in " (Dub)" afterwards |
| Search.MoveDubKeepsSuffixed | scrapeanime/Browse/Search/search.js:35-38 | a trimmed title that already ends in its only " (Dub)" is left unchanged |
| Search.FirstFoundText | scrapeanime/Browse/Search/search.js:62-88 | the text comes from the first selector that matched, and is empty when no selector matched |
| Search.TypeOf | scrapeanime/Browse/Search/search.js:117-126 | the type is "sub/dub", "sub", "dub" or empty exactly as both, only sub, only dub or neither was found |
| Search.ResultOf | scrapeanime/Browse/Search/search.js:27-134 | an item gives a result exactly when its title is non-empty; the image is empty or an http URL without the placeholder; without an image there is no Japanese title; the episode, when present, is a non-empty run of digits |
| Search.FirstMatched | scrapeanime/Browse/Search/search.js:22-137 | the items are those of the first selector that matched something, and empty only when no selector matched anything |
| Search.ScrapeAnimeSearch | scrapeanime/Browse/Search/search.js:4-151 | a fetch failure is thrown again with the search prefix; otherwise the results are the items of the first matching selector that have a title, in document order |
| Search.SearchResultsFromItems | scrapeanime/Browse/Search/search.js:99-133 | every result has a non-empty title and comes from an item of the first matching selector, in order |
| Listing.FileStem | scrapeanime/Browse/Search/search.js:104-107 | the file name loses its image extension and its "-dub" or "-sub" ending, and keeps no slash |
| Listing.PosterTitle | scrapeanime/Browse/Search/search.js:100-116 | no poster gives no Japanese title; a "-dub" poster's title ends in " Dub"; the title holds no dash and no slash |
| Listing.DubPosterTitle | scrapeanime/Browse/Search/search.js:103-112 | a "-dub.jpg" poster named after a slug gives back that slug, spaced and capitalised, followed by " Dub" |
| Each.EachPushSome | scrapeanime/Browse/Search/search.js:27-135 | a callback that skips some elements yields exactly the values pushed by the others, in document order |
| Suggestion.SuggestionOf | extracted-files/Shirayuki-Scrapper-API-V1-main/scrapeanime/Browse/Suggestion/suggestion.js:10-64 | an item gives a suggestion exactly when it has a title; it is numbered by its position plus one; its type is "dub" exactly when a dub marker is present and "sub" otherwise; the episode holds digits only; the image is empty or an http URL without the placeholder |
| Suggestion.ScrapeSearchSuggestions | extracted-files/Shirayuki-Scrapper-API-V1-main/scrapeanime/Browse/Suggestion/suggestion.js:8-67 | the suggestions are exactly those pushed by the per-item rule, in document order |
| Suggestion.IndexIsPosition | extracted-files/Shirayuki-Scrapper-API-V1-main/scrapeanime/Browse/Suggestion/suggestion.js:57 | each suggestion's number is one more than the position of the item it comes from |
| Suggestion.SuggestionNumbersInRange | extracted-files/Shirayuki-Scrapper-API-V1-main/scrapeanime/Browse/Suggestion/suggestion.js:57 | the numbers stay between 1 and the number of items |
| Suggestion.SuggestionNumbersIncrease | extracted-files/Shirayuki-Scrapper-API-V1-main/scrapeanime/Browse/Suggestion/suggestion.js:10-57 | the numbers increase strictly along the list |
| Suggestion.EveryTitledItemNumbered | extracted-files/Shirayuki-Scrapper-API-V1-main/scrapeanime/Browse/Suggestion/suggestion.js:55-63 | every item with a title appears, numbered after its position |
| Suggestion.FirstUntitledSkipsOne | extracted-files/Shirayuki-Scrapper-API-V1-main/scrapeanime/Browse/Suggestion/suggestion.js:55-57 | an untitled first item leaves a gap: the next suggestion is numbered 2 |
| GenreRoute.PageOf | routes/genre.js:10 | the page is never 0: a missing, unparsable or zero parameter gives page 1 |
| GenreRoute.PageRoundTrip | routes/genre.js:10 | a page number written out is read back as that page, except 0, which reads as page 1 |
| GenreRoute.TotalCounts | routes/genre.js:14-22 | a total is present only when the page was fetched and its total text holds a digit, and it is never negative |
| GenreRoute.TotalCountsReadsNumber | routes/genre.js:18-19 | a count printed among digit-free words is read back exactly |
| GenreRoute.NextThenPrevious | routes/genre.js:37-40 | following next_page from a page at or after the first leads to a page whose previous_page is the page we came from |
| GenreRoute.Answer | routes/genre.js:24-46 | the answer lists the genre page's entries numbered from 1 in order, with the pagination block, message and source URL of the requested page |
| GenreRoute.GetGenre | routes/genre.js:6-65 | as written: a successful scrape answers the numbered entries and pagination, while a failure leaves the request unanswered because the error handler reads an out-of-scope variable |
| GenreRoute.GetGenreCorrected | routes/genre.js:47-63 | with a working error branch: a failure answers 500 with its message and an empty pagination block for the requested page; success is as in the handler as written |
| Leaderboard.TickEpisodes | scrapeanime/Leaderboard/Weekly/scrapeHiAnimeWeeklyTop10.js:36-47 | the sub and dub lists hold the trimmed text of every sub or dub tick, in order, and never an empty string |
| Leaderboard.Visit | scrapeanime/Leaderboard/Weekly/scrapeHiAnimeWeeklyTop10.js:30-99 | one item is pushed exactly when its title is non-empty, is longer than three characters on a list pass, and was not seen; the seen titles stay the titles of the results |
| Leaderboard.RunPass | scrapeanime/Leaderboard/Weekly/scrapeHiAnimeWeeklyTop10.js:28-103 | the loop over a pass's items equals the pass function, stops once ten entries are held, and keeps the seen set equal to the result titles |
| Leaderboard.TitlesOfPush | scrapeanime/Leaderboard/Weekly/scrapeHiAnimeWeeklyTop10.js:49-51 | pushing an entry adds exactly its title to the titles seen |
| Leaderboard.StepAppends | scrapeanime/Leaderboard/Weekly/scrapeHiAnimeWeeklyTop10.js:49-58 | one item appends at most one entry, of the pass's category, and keeps the earlier entries |
| Leaderboard.StepKeepsRanking | scrapeanime/Leaderboard/Weekly/scrapeHiAnimeWeeklyTop10.js:29-97 | one item keeps the ranking promise: at most ten entries, distinct non-empty titles, list entries longer than three characters and ranked by place, and no rank below its place |
| Leaderboard.PassAppends | scrapeanime/Leaderboard/Weekly/scrapeHiAnimeWeeklyTop10.js:28-64 | a whole pass only appends, and only entries of its own category |
| Leaderboard.PassKeepsRanking | scrapeanime/Leaderboard/Weekly/scrapeHiAnimeWeeklyTop10.js:28-103 | a whole pass keeps the ranking promise |
| Leaderboard.TwoPassRanking | extracted-files/Shirayuki-Scrapper-API-V1-main/scrapeanime/Leaderboard/Top/scrapeHiAnimeTop10.js:23-95 | the top pass followed by the list pass keeps the ranking promise and tags every entry "top" or "regular" |
| Leaderboard.WeeklyRanking | scrapeanime/Leaderboard/Weekly/scrapeHiAnimeWeeklyTop10.js:106-152 | the weekly results keep the ranking promise; entries tagged "alternative" appear only, and then exclusively, when the two passes found nothing |
| Leaderboard.JapaneseOf | scrapeanime/Leaderboard/Weekly/scrapeHiAnimeWeeklyTop10.js:161 | a non-empty title always has a non-empty Japanese reading, the romanized title or else the title itself |
| Leaderboard.ImgOf | scrapeanime/Leaderboard/Weekly/scrapeHiAnimeWeeklyTop10.js:162 | the image field is empty exactly when the entry has no image |
| Leaderboard.ImgCarriesTitle | scrapeanime/Leaderboard/Weekly/scrapeHiAnimeWeeklyTop10.js:162 | the image URL is the image, "?title=", and a value with no query delimiters that decodes back to the title's UTF-8 bytes |
| Leaderboard.EntryOf | scrapeanime/Leaderboard/Weekly/scrapeHiAnimeWeeklyTop10.js:157-166 | each output entry carries its place as index, the entry's rank and title, a Japanese reading, an image field that is empty exactly when there is no image, and a category only on the weekly board |
| Leaderboard.FinalResults | scrapeanime/Leaderboard/Weekly/scrapeHiAnimeWeeklyTop10.js:157 | at most the first ten entries are mapped, each to the output entry of its place |
| Leaderboard.KeyByIndex | scrapeanime/Leaderboard/Weekly/scrapeHiAnimeWeeklyTop10.js:168-171 | the object holds exactly the keys 1 to n, each key holding the entry whose index it is |
| Leaderboard.Keyed | scrapeanime/Leaderboard/Weekly/scrapeHiAnimeWeeklyTop10.js:157-171 | the object is keyed 1 to n from the first ten results, each key holding the output entry of that place |
| Leaderboard.ErrorObject | scrapeanime/Leaderboard/Weekly/scrapeHiAnimeWeeklyTop10.js:176-188 | the failure object holds one entry under key 1, ranked 1, with the board's error title, no image and no episodes |
| Leaderboard.ScrapeTop10 | extracted-files/Shirayuki-Scrapper-API-V1-main/scrapeanime/Leaderboard/Top/scrapeHiAnimeTop10.js:5-126 | a failure yields the "Scraping Error" object; otherwise the object is keyed from the two passes over the chosen chart section |
| Leaderboard.ScrapeMonthlyTop10 | extracted-files/Shirayuki-Scrapper-API-V1-main/scrapeanime/Leaderboard/Monthly/scrapeHiAnimeMonthlyTop10.js:5-139 | a failure yields the "Monthly Scraping Error" object; otherwise the object is keyed from the two passes over the monthly section or its fallback |
| Leaderboard.ScrapeWeeklyTop10 | scrapeanime/Leaderboard/Weekly/scrapeHiAnimeWeeklyTop10.js:5-190 | a failure yields the "Weekly Scraping Error" object with category "error"; otherwise the object is keyed, with categories, from the two passes, or from the alternative section when they found nothing |
| Leaderboard.KeyedDistinct | scrapeanime/Leaderboard/Weekly/scrapeHiAnimeWeeklyTop10.js:17-171 | no two entries of the returned object share a title |
| Uri.Utf8 | scrapeanime/Leaderboard/Weekly/scrapeHiAnimeWeeklyTop10.js:162 | one to four bytes per character; a single byte equal to the code for ASCII, and only bytes of 0x80 and above otherwise |
| Uri.EncodeByte | scrapeanime/Leaderboard/Weekly/scrapeHiAnimeWeeklyTop10.js:162 | a byte is written as one unreserved character or as "%" and two hex digits |
| Uri.EncodeURIComponent | scrapeanime/Leaderboard/Weekly/scrapeHiAnimeWeeklyTop10.js:162 | the encoded text holds only unreserved characters, "%" and hex digits |
| Uri.PercentRoundTrip | scrapeanime/Leaderboard/Weekly/scrapeHiAnimeWeeklyTop10.js:162 | percent-decoding undoes percent-encoding on every byte string |
| Uri.EncodeURIComponentRoundTrip | scrapeanime/Leaderboard/Weekly/scrapeHiAnimeWeeklyTop10.js:162 | the encoded title decodes to the title's UTF-8 bytes |
| Uri.UnreservedUnchanged | scrapeanime/Leaderboard/Weekly/scrapeHiAnimeWeeklyTop10.js:162 | a title made only of unreserved characters is written as it is |
| Availability.Key | extracted-files/Shirayuki-Scrapper-API-V1-main/scrapeanime/homepage/Underrated/underrated.js:18 | the cache key is "availability:" followed by the title, and is exactly 13 characters longer |
| Availability.Verdict | extracted-files/Shirayuki-Scrapper-API-V1-main/scrapeanime/homepage/Underrated/underrated.js:24 | the answer is "available" exactly when a text page came back that mentions the title, ignoring case, and "not available" otherwise |
| Availability.TtlFor | extracted-files/Shirayuki-Scrapper-API-V1-main/scrapeanime/homepage/Underrated/underrated.js:25-29 | a read page is kept ten minutes, a failed request one minute |
| Availability.AvailabilityCache | extracted-files/Shirayuki-Scrapper-API-V1-main/scrapeanime/homepage/Underrated/underrated.js:11 | both builders get the one shared "availability" namespace, the existing one when it was already created; no other namespace is added, dropped or replaced |
| Availability.CheckAvailability | extracted-files/Shirayuki-Scrapper-API-V1-main/scrapeanime/homepage/Underrated/underrated.js:17-32 | a cached non-empty answer is returned without a request and the cache is unchanged; otherwise the request's verdict is returned and stored under the title's key for its time to live |
| Availability.FreshAnswerCached | extracted-files/Shirayuki-Scrapper-API-V1-main/scrapeanime/homepage/Underrated/underrated.js:19-29 | a stored answer is served until ten minutes after a read page, or one minute after a failed request, and not after |
| Availability.CaseInsensitiveKey | extracted-files/Shirayuki-Scrapper-API-V1-main/scrapeanime/homepage/Underrated/underrated.js:18 | titles that differ only in ASCII case share one cache entry |
| RatedPicks.KitsuCand | extracted-files/Shirayuki-Scrapper-API-V1-main/scrapeanime/homepage/Underrated/underrated.js:34-47 | a Kitsu candidate always has a title ("Unknown" at worst), and a missing episode count is null, never 0 |
| RatedPicks.JikanCand | scrapeanime/homepage/Overrated/overrated.js:65-72 | a Jikan candidate always has a title, and its type is "sub" exactly when an English title exists |
| RatedPicks.JikanHead | scrapeanime/homepage/Overrated/overrated.js:65 | only the first eight Jikan entries become candidates, in order |
| RatedPicks.Batches | extracted-files/Shirayuki-Scrapper-API-V1-main/scrapeanime/homepage/Underrated/underrated.js:57-78 | the batch loop checks candidates from its start and never past the end |
| RatedPicks.RunBatches | extracted-files/Shirayuki-Scrapper-API-V1-main/scrapeanime/homepage/Underrated/underrated.js:53-78 | the loop over batches of three gives the same picks and checked count as the batch function, and the title set stays the lower-cased titles of the picks |
| RatedPicks.RunBatch | extracted-files/Shirayuki-Scrapper-API-V1-main/scrapeanime/homepage/Underrated/underrated.js:61-77 | the loop over one batch's answers gives the same picks as selecting over the batch, and keeps the title set in step |
| RatedPicks.LowerTitlesPush | extracted-files/Shirayuki-Scrapper-API-V1-main/scrapeanime/homepage/Underrated/underrated.js:75 | pushing a pick adds exactly its lower-cased title to the title set |
| RatedPicks.SelectFull | extracted-files/Shirayuki-Scrapper-API-V1-main/scrapeanime/homepage/Underrated/underrated.js:61 | once five are held, no further candidate is taken |
| RatedPicks.SelectAppend | extracted-files/Shirayuki-Scrapper-API-V1-main/scrapeanime/homepage/Underrated/underrated.js:57-58 | selecting over two lists is selecting over the first and then the second |
| RatedPicks.BatchesAgree | extracted-files/Shirayuki-Scrapper-API-V1-main/scrapeanime/homepage/Underrated/underrated.js:53-78 | batching does not change the outcome: the batch loop keeps what one pass over all the candidates would keep |
| RatedPicks.BatchesStop | extracted-files/Shirayuki-Scrapper-API-V1-main/scrapeanime/homepage/Underrated/underrated.js:57 | the loop stops only when the candidates run out or five are held, and checks whole batches of three, the last one possibly short |
| RatedPicks.NoBatchAfterFive | extracted-files/Shirayuki-Scrapper-API-V1-main/scrapeanime/homepage/Underrated/underrated.js:57 | no batch starts once five are held |
| RatedPicks.SelectChosen | extracted-files/Shirayuki-Scrapper-API-V1-main/scrapeanime/homepage/Underrated/underrated.js:61-77 | selection only appends, numbers each entry by its place, caps at five, and appends only candidates the check called available |
| RatedPicks.SelectDistinct | extracted-files/Shirayuki-Scrapper-API-V1-main/scrapeanime/homepage/Underrated/underrated.js:63-75 | where titles are compared, every appended entry's lower-cased title differs from all those before it |
| RatedPicks.Reindexed | extracted-files/Shirayuki-Scrapper-API-V1-main/scrapeanime/homepage/Underrated/underrated.js:117 | at most five entries are kept, each renumbered by its place |
| RatedPicks.FetchOverrated | scrapeanime/homepage/Overrated/overrated.js:4-109 | a failed Kitsu fetch gives no results; otherwise the results are the overrated selection, capped at five and renumbered |
| RatedPicks.OverratedChosen | scrapeanime/homepage/Overrated/overrated.js:43-99 | at most five entries numbered 1 to n, all available; the Kitsu ones are the first available in list order; a Jikan entry never repeats a lower-cased title held before it; five Kitsu picks leave no room for Jikan |
| RatedPicks.FetchUnderrated | extracted-files/Shirayuki-Scrapper-API-V1-main/scrapeanime/homepage/Underrated/underrated.js:4-125 | a failed Kitsu fetch gives no results; otherwise the results are the underrated selection, capped at five and renumbered |
| RatedPicks.UnderratedChosen | extracted-files/Shirayuki-Scrapper-API-V1-main/scrapeanime/homepage/Underrated/underrated.js:49-115 | at most five entries numbered 1 to n, all available, and pairwise different in lower case |
| RatedPicks.DedupPhaseKeeps | extracted-files/Shirayuki-Scrapper-API-V1-main/scrapeanime/homepage/Underrated/underrated.js:57-111 | a batch loop that compares titles keeps the picks available and pairwise different |
| RatedPicks.InsertByMetric | extracted-files/Shirayuki-Scrapper-API-V1-main/scrapeanime/homepage/Underrated/underrated.js:51 | inserting adds exactly the candidate to the list |
| RatedPicks.InsertKeepsOrder | extracted-files/Shirayuki-Scrapper-API-V1-main/scrapeanime/homepage/Underrated/underrated.js:51 | inserting keeps the list ordered by metric, highest first |
| RatedPicks.SortByMetric | extracted-files/Shirayuki-Scrapper-API-V1-main/scrapeanime/homepage/Underrated/underrated.js:51 | the sorted list is a permutation of the candidates, ordered by metric, highest first |
| Watch.NumericId | extracted-files/Shirayuki-Scrapper-API-V1-main/routes/watch.js:49 | the number asked for is the text after the last dash, and holds no dash |
| Watch.NumericIdOfSlug | extracted-files/Shirayuki-Scrapper-API-V1-main/routes/watch.js:48-49 | for a slug "name-digits" the number asked for is exactly the digits |
| Watch.EpisodeOf | extracted-files/Shirayuki-Scrapper-API-V1-main/routes/watch.js:70-75 | the title is the trimmed title attribute, or null exactly when that is missing or blank; the episode id is non-empty, holds no slash, and is null without an href; a missing data-number gives NaN; the filler flag is the class test |
| Watch.EpisodeIdOfHref | extracted-files/Shirayuki-Scrapper-API-V1-main/routes/watch.js:72 | an href's last path segment is the episode id |
| Watch.Validate | extracted-files/Shirayuki-Scrapper-API-V1-main/routes/watch.js:19-33 | a blank id is refused as missing, then an id without a dash as malformed, and only an id with a dash passes |
| Watch.FailureOf | extracted-files/Shirayuki-Scrapper-API-V1-main/routes/watch.js:96-115 | an upstream HTTP error is answered with its own status and the "Failed to fetch episodes" message; any other error with 500 and its message |
| Watch.GetEpisodes | extracted-files/Shirayuki-Scrapper-API-V1-main/routes/watch.js:13-117 | an invalid id answers 400 without touching the cache; a live cached list is served as cached; otherwise an upstream failure is reported, or the list built from every anchor, in order and with its count, is answered and cached for thirty minutes from the moment it is stored, after the upstream request |
| Watch.ListCachedThirtyMinutes | extracted-files/Shirayuki-Scrapper-API-V1-main/routes/watch.js:7-84 | a stored episode list is served from the cache throughout the thirty minutes after it was stored |
| Watch.Legacy | extracted-files/Shirayuki-Scrapper-API-V1-main/routes/watch.js:123-154 | the legacy route answers 400 exactly for a blank title; otherwise it points at the new route holding exactly the given title |
| ScheduleRoute.Status | extracted-files/Shirayuki-Scrapper-API-V1-main/routes/schedule.js:97-114 | the status is 500 exactly for a failure and 200 otherwise |
| ScheduleRoute.PadTwo | extracted-files/Shirayuki-Scrapper-API-V1-main/routes/schedule.js:12 | the week number is written with at least two characters, all digits |
| ScheduleRoute.PadTwoRoundTrip | extracted-files/Shirayuki-Scrapper-API-V1-main/routes/schedule.js:12 | the padded week number reads back as the week number |
| ScheduleRoute.WeekId | extracted-files/Shirayuki-Scrapper-API-V1-main/routes/schedule.js:8-13 | the week id is the year, "-W", and the padded week number |
| ScheduleRoute.WeekIdYear | extracted-files/Shirayuki-Scrapper-API-V1-main/routes/schedule.js:12 | the year is the leading run of digits of the week id |
| ScheduleRoute.WeekIdsDistinct | extracted-files/Shirayuki-Scrapper-API-V1-main/routes/schedule.js:8-13 | different weeks get different week ids, so the store keeps one record per week |
| ScheduleRoute.Project | extracted-files/Shirayuki-Scrapper-API-V1-main/routes/schedule.js:41-45 | a stored week is answered item by item, cut down to day, anime and time, in the stored order |
| ScheduleRoute.StoredRoundTrip | extracted-files/Shirayuki-Scrapper-API-V1-main/routes/schedule.js:41-73 | storing a scrape keeps its days, and reading it back gives the scrape |
| ScheduleRoute.ProjectKeepsDays | extracted-files/Shirayuki-Scrapper-API-V1-main/routes/schedule.js:35-45 | cutting stored items down keeps every day, so a stored week and its answer get the same verdict |
| ScheduleRoute.Cleaned | extracted-files/Shirayuki-Scrapper-API-V1-main/routes/schedule.js:86-91 | the clean-up keeps exactly the weeks updated at or after the cut-off, unchanged |
| ScheduleRoute.ErrorPayloadNotSaved | extracted-files/Shirayuki-Scrapper-API-V1-main/routes/schedule.js:64-84 | an empty or error scrape is never written: the store only loses its old weeks |
| ScheduleRoute.GoodPayloadSaved | extracted-files/Shirayuki-Scrapper-API-V1-main/routes/schedule.js:69-79 | any other scrape is stored under its week with its own length as the episode count, and survives the clean-up that follows |
| ScheduleRoute.Saved | extracted-files/Shirayuki-Scrapper-API-V1-main/routes/schedule.js:64-79 | saving touches no week other than the current one |
| ScheduleRoute.SavedKeepsStoreClean | extracted-files/Shirayuki-Scrapper-API-V1-main/routes/schedule.js:64-79 | a store without empty or error weeks stays without them after the save step |
| ScheduleRoute.AfterScrapeKeepsStoreClean | extracted-files/Shirayuki-Scrapper-API-V1-main/routes/schedule.js:64-91 | a store without empty or error weeks stays without them after a scrape |
| ScheduleRoute.AfterScrapeIsRecent | extracted-files/Shirayuki-Scrapper-API-V1-main/routes/schedule.js:86-91 | after the clean-up no stored week is older than the cut-off |
| ScheduleRoute.ScheduleStore.GetSchedule | extracted-files/Shirayuki-Scrapper-API-V1-main/routes/schedule.js:21-115 | a failed lookup answers 500 and leaves the store alone; a reusable stored week is answered as cached with its stored fields and 0.001 seconds; otherwise a failed upsert answers 500 with the store unchanged, a failed clean-up answers 500 after the save, and else the scrape is answered, saved unless it is empty or an error payload, and old weeks are deleted; a store without error weeks keeps none |
| ScheduleRoute.CachedAnswerIsNeverError | extracted-files/Shirayuki-Scrapper-API-V1-main/routes/schedule.js:34-56 | a stored week the route answers with is never empty or an error payload |
| DbScheduleRoute.DbStatus | extracted-files/Shirayuki-Scrapper-API-V1-main/routes/db-schedule.js:21-23 | the status is 500 exactly for a database failure and 200 otherwise |
| DbScheduleRoute.FetchSchedule | extracted-files/Shirayuki-Scrapper-API-V1-main/scrapeanime/Schedule/db-schedule.js:7-25 | a driver failure is rethrown with the database prefix; no document gives no items; otherwise the newest document's items |
| DbScheduleRoute.CountDay | extracted-files/Shirayuki-Scrapper-API-V1-main/routes/db-schedule.js:9-13 | a day's count never exceeds the number of items |
| DbScheduleRoute.IdAt | extracted-files/Shirayuki-Scrapper-API-V1-main/routes/db-schedule.js:9-13 | an item's id lies between 1 and its position plus one |
| DbScheduleRoute.NumberAll | extracted-files/Shirayuki-Scrapper-API-V1-main/routes/db-schedule.js:10-20 | every item keeps its day, anime and time, in the stored order |
| DbScheduleRoute.NumberByDay | extracted-files/Shirayuki-Scrapper-API-V1-main/routes/db-schedule.js:9-20 | the loop with its per-day counters numbers every item as one more than the items of its day before it |
| DbScheduleRoute.CountersStep | extracted-files/Shirayuki-Scrapper-API-V1-main/routes/db-schedule.js:11-13 | reading and bumping the counter of an item's day gives its id and keeps the counters in step |
| DbScheduleRoute.GetDbSchedule | extracted-files/Shirayuki-Scrapper-API-V1-main/routes/db-schedule.js:6-25 | a database failure answers 500 with the prefixed message; otherwise the stored items are answered with their per-day ids |
| DbScheduleRoute.CountAppend | extracted-files/Shirayuki-Scrapper-API-V1-main/routes/db-schedule.js:11-13 | counting a day over two lists adds the two counts |
| DbScheduleRoute.FirstOfDayIsOne | extracted-files/Shirayuki-Scrapper-API-V1-main/routes/db-schedule.js:11-12 | the first item of a day gets id 1 |
| DbScheduleRoute.NextOfDayIsNext | extracted-files/Shirayuki-Scrapper-API-V1-main/routes/db-schedule.js:11-13 | the next item of the same day gets the next id, whatever items of other days lie between them |
| DbScheduleRoute.IdsIncreaseWithinDay | extracted-files/Shirayuki-Scrapper-API-V1-main/routes/db-schedule.js:9-20 | within a day the ids increase strictly in the stored order, so no two items of one day share an id |
| Text.ParseIntRoundTrip | routes/genre.js:10 | reading back the decimal text of any integer gives that integer, as parseInt does on a page number |
| Text.Trim | extracted-files/Shirayuki-Scrapper-API-V1-main/scrapeanime/Browse/Suggestion/suggestion.js:11 | trimming keeps exactly the stretch from the first to the last non-space character, with no space at either end |
| Text.LastSegment | extracted-files/Shirayuki-Scrapper-API-V1-main/routes/watch.js:49 | the last segment is a suffix holding no separator, preceded by a separator when it is not the whole text |

## Left out

- Network I/O is not modelled. This covers axios and fetch requests, and the Kitsu, Jikan, 123anime and HiAnime lookups. Each is a parameter that gives a value or an error.
- The Puppeteer browser is not modelled: its launch, request interception, `page.evaluate`, and click and poll timing. Each navigation attempt, iframe search (with the message of its `page.evaluate` throw), polled link and the debug read's throw is a parameter of `SingleEpisode.OpenAndScrape`. Throws of the click and poll steps are swallowed by the source and are not modelled. A throw of the browser set-up outside the scraper's `try` is the `setupError` parameter of `SingleEpisode.ScrapeCache.ScrapeSingleEpisode`.
- Cheerio selector matching is not modelled. The model starts from the fields extracted from each matched element, in document order.
- The homepage extractors plugged into the aggregator are not modelled. Each is an input list of records or a failure.
- The detail scrapers and the schedule scraper are not part of this model. The schedule route takes the scraper's days as input.
- Promise interleavings are not modelled.
  - `Promise.all` and `Promise.allSettled` settle in one fixed order.
  - The three-second race timeout of the homepage extractors counts as an extractor failure.
  - Within a `Promise.all`, cache writes happen in list order.
- The homepage warm task (`setInterval`) and the cache-meta helper are not modelled.
- Clocks are not modelled. `Date.now()` readings are parameters, and every `extraction_time_seconds` or `duration` value is dropped.
- The schedule week number is an input, because `getWeekNumber` does local-time date arithmetic with a fractional day count. Daylight-saving effects of `setDate` in the four-week cut-off are not modelled either: the cut-off is four weeks of milliseconds before a clock reading that is an input.
- Floating point is not modelled. Kitsu and Jikan scores and the log10 popularity metric are inputs. The metric is only used as an ordering key.
- RatedPicks.SortByMetric: stability of the JavaScript sort among equal metrics is not stated. Only the permutation and the descending order are proved.
- RatedPicks availability is a fixed answer per title. What the availability cache remembers between calls is modelled separately in `Availability`.
- WHATWG URL parsing behind `new URL` is a parameter. Only the catch-branch fallback of the resolver is modelled.
- Parsing a fetched body into a document is not modelled: the body is returned as text.
- The Unicode NFKD normalisation and the diacritic strip at the start of `slugifyTitle` are not modelled. The slug rules start from the already stripped title.
- `toLowerCase` and `toUpperCase`, and the `i` flag of the regular expressions, are modelled on ASCII letters only.
- JavaScript strings are sequences of UTF-16 code units, but the model works on Unicode scalar values. Lone surrogates do not occur in the model. Length tests such as the leaderboard's `> 3` and the single-episode `< 30` count scalar values.
- The `\s` class and the set that `trim` strips are modelled as the JavaScript whitespace set listed in `Text.IsSpace`.
- `Number()` on a query or attribute text is a parameter, except for the decimal forms the routes rely on. `parseInt` is modelled on decimal digits with unbounded precision, so loss of precision past 2^53 is not modelled.
- Query parameters that arrive as arrays are not modelled: each parameter is one optional text.
- Express wiring is not part of this model, nor are the pass-through routes with no logic of their own.
- Response fields that only carry debug information or log lines are dropped.
- MongoDB is not modelled as a database.
  - The schedule collection is a map from week id to record, one record per week as the upsert keeps it.
  - Mongoose's `_id`, version key and timestamps are kept as an opaque `meta` field on stored items.
  - A failed connection is not an error of the schedule route: `connectDB` ends the process instead (config/database.js:29-31), so the route is modelled from a live connection on.
  - A failed lookup, upsert or clean-up query of the schedule route answers 500. A failed write is modelled as changing nothing, and a failed clean-up as deleting nothing.
  - A throw of the schedule scraper is not modelled: it catches its own errors and returns the error payload instead.
  - The stored-schedule reader distinguishes a driver error, no document, and a document with items.
- DbScheduleRoute.NumberByDay: keys of `Object.prototype` (a day named `constructor`, say) are not treated specially. The counters are a map that starts empty.
- RecentlyUpdatedDub.JapaneseTitleWith: keys of `Object.prototype` are not treated specially in the romaji table lookup either. The table is a map.
- Homepage.SectionTotals: the same holds for the per-section counters and for Homepage.IndexBySection. Both are maps that start empty.
- The unused `fetchImdbRating` helpers in the recently-updated and ongoing scrapers are not modelled, being dead code. Neither is the `audio` field that the recently-updated scraper computes but never returns.
- The Kitsu response is modelled only as far as the builders read it: title texts, the score and the episode count.
- The chart section that the HiAnime leaderboards fall back to when the primary section is missing is an input: the selector chain that finds it is not modelled.
- Suggestion.ScrapeSearchSuggestions, AzList.ScrapeAnimeByLetter and AzList.ScrapeAnimeByGenre start from the extracted elements: their page fetch is not modelled, so an error thrown by it, which the source lets propagate unchanged, has no counterpart in them.
- The genre route is the one caller that carries such a fetch error: GenreRoute.GetGenre takes the fetch outcome as a `Result`.

## Findings

| source | as written | input that shows it | evidently intended | confidence | as-written member | corrected member |
|---|---|---|---|---|---|---|
| routes/genre.js:48 | the error handler reads `start`, which is declared with `const` inside the `try` block (routes/genre.js:8), so the handler itself throws a ReferenceError and no 500 answer is sent | any genre request whose page fetch fails | answer 500 with the error message | high (not executed) | GenreRoute.GetGenre | GenreRoute.GetGenreCorrected |
