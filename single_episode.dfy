/** `scrapeSingleEpisode(episodeUrl)`: answer from the five-minute result
    cache, or open the episode page (two navigation attempts), look for a
    streaming iframe (two extraction attempts), and describe the episode
    from its URL.  The browser is a parameter: what each navigation attempt
    does, what the iframe search finds in each attempt, and what the
    click-and-poll step between attempts turns up. */
module SingleEpisode {
  import opened Wrappers
  import opened Text

  /** Five minutes, in milliseconds. */
  const CACHE_TTL_MS: int := 300000
  const MAX_NAV_ATTEMPTS: nat := 2
  const MAX_LINK_ATTEMPTS: nat := 2
  const MIN_LINK_LENGTH: nat := 30

  // --------------------------------------------------- streaming-link filter

  const WHITELIST: seq<string> := [
    "bunnycdn.to", "bunnycdn", "bunnycdn.com", "play.bunnycdn", "play.bunnycdn.to",
    "filemoon", "doodstream", "streamtape", "mp4upload", "mixdrop", "upstream",
    "streamwish", "vids.to", "vidstream", "fastcdn", "embed", "player", "vid", "video"]

  const BLACKLIST: seq<string> := [
    "disqus.com", "dtscout.com", "google-analytics", "googletagmanager",
    "doubleclick.net", "googlesyndication", "googleadservices", "adsystem",
    "facebook.com", "twitter.com", "instagram.com", "tiktok.com"]

  /** Some word of `words` occurs in `s`. */
  predicate ContainsAny(s: string, words: seq<string>) {
    exists i :: 0 <= i < |words| && Contains(s, words[i])
  }

  /** `isValidStreamingLink(src)` against given lists.  The `http` prefix is
      compared case-sensitively, the lists on the lower-cased source. */
  predicate ValidWith(src: string, white: seq<string>, black: seq<string>) {
    src != "" && src != "about:blank" && StartsWith(src, "http") && |src| >= MIN_LINK_LENGTH &&
    !ContainsAny(Lower(src), black) && ContainsAny(Lower(src), white)
  }

  predicate IsValidStreamingLink(src: string) {
    ValidWith(src, WHITELIST, BLACKLIST)
  }

  /** The verdict does not depend on the case of the source past its
      case-sensitive `http` prefix. */
  lemma VerdictIgnoresCase(a: string, b: string, white: seq<string>, black: seq<string>)
    requires Lower(a) == Lower(b) && StartsWith(a, "http") && StartsWith(b, "http")
    ensures ValidWith(a, white, black) <==> ValidWith(b, white, black)
  {
    assert |a| == |Lower(a)| == |b|;
    assert a[..4] == b[..4];
  }

  /** A blacklisted word anywhere rejects the link, whatever else it holds. */
  lemma {:induction false} BlacklistWins(src: string, white: seq<string>, black: seq<string>, j: nat)
    requires j < |black| && Contains(Lower(src), black[j])
    ensures !ValidWith(src, white, black)
  {
  }

  /** The iframe search, one attempt: `priority[k]` is the source of the
      first iframe the k-th priority selector finds, `None` when it finds
      none; `iframes` are the candidate attributes of every iframe on the
      page in document order (`src`, then `data-src`, `data-lazy`,
      `data-original`). */
  datatype Page = Page(priority: seq<Option<string>>, iframes: seq<seq<string>>)

  const MAX_SCANNED_IFRAMES: nat := 20

  /** The first valid source among `srcs`. */
  function FirstValid(srcs: seq<Option<string>>): (r: Option<string>)
    ensures r.Some? ==> IsValidStreamingLink(r.value) && Some(r.value) in srcs
    ensures r.None? <==> forall i :: 0 <= i < |srcs| ==> srcs[i].None? || !IsValidStreamingLink(srcs[i].value)
    decreases |srcs|
  {
    if srcs == [] then None
    else if srcs[0].Some? && IsValidStreamingLink(srcs[0].value) then srcs[0]
    else FirstValid(srcs[1..])
  }

  function IframeSources(iframes: seq<seq<string>>): (r: seq<Option<string>>)
    ensures |r| == |iframes|
  {
    seq(|iframes|, i requires 0 <= i < |iframes| =>
      var s := FirstNonEmpty(iframes[i]); if s == "" then None else Some(s))
  }

  /** `findValidIframeSource()`: the priority selectors in order, then the
      first twenty iframes. */
  function FindValidIframeSource(p: Page): (r: Option<string>)
    ensures r.Some? ==> IsValidStreamingLink(r.value)
    ensures FirstValid(p.priority).Some? ==> r == FirstValid(p.priority)
  {
    match FirstValid(p.priority)
    case Some(src) => Some(src)
    case None => FirstValid(IframeSources(if |p.iframes| <= MAX_SCANNED_IFRAMES then p.iframes else p.iframes[..MAX_SCANNED_IFRAMES]))
  }

  // ----------------------------------------------------- retry loops

  /** `safeGoto`: `nav(k)` is `None` when the k-th attempt loads the page,
      `Some(message)` when it throws.  Returns the message of the last
      failure when both attempts fail. */
  method SafeGoto(nav: nat -> Option<string>) returns (r: Option<string>, attempts: nat)
    ensures 1 <= attempts <= MAX_NAV_ATTEMPTS
    ensures nav(0).None? ==> attempts == 1 && r.None?
    ensures nav(0).Some? ==> attempts == 2 && r == nav(1)
  {
    attempts := 0;
    r := None;
    while attempts < MAX_NAV_ATTEMPTS
      invariant 0 <= attempts <= MAX_NAV_ATTEMPTS
      invariant forall k :: 0 <= k < attempts ==> nav(k).Some?
      invariant attempts > 0 ==> r == nav(attempts - 1)
      decreases MAX_NAV_ATTEMPTS - attempts
    {
      var outcome := nav(attempts);
      attempts := attempts + 1;
      if outcome.None? {
        return None, attempts;
      }
      r := outcome;
    }
  }

  /** The link the extraction loop settles on: the first attempt's iframe,
      else the polled link, else the second attempt's iframe.  `searches(k)`
      is the page the k-th search reads, or the message of what that
      `page.evaluate` threw; such a throw ends the scrape. */
  function LinkOf(searches: nat -> Result<Page, string>, polled: Option<string>): (r: Result<Option<string>, string>)
    ensures r.Ok? && r.value.Some? ==> IsValidStreamingLink(r.value.value) || r.value == polled
    ensures searches(0).Err? ==> r == Err(searches(0).error)
    ensures r.Err? && searches(0).Ok? ==> searches(1).Err? && r == Err(searches(1).error)
    ensures r == Ok(None) <==>
      searches(0).Ok? && FindValidIframeSource(searches(0).value).None? && polled.None? &&
      searches(1).Ok? && FindValidIframeSource(searches(1).value).None?
  {
    match searches(0)
    case Err(e) => Err(e)
    case Ok(first) =>
      if FindValidIframeSource(first).Some? then Ok(FindValidIframeSource(first))
      else if polled.Some? then Ok(polled)
      else match searches(1)
        case Err(e) => Err(e)
        case Ok(second) => Ok(FindValidIframeSource(second))
  }

  /** The extraction loop: attempt k searches `searches(k)`; after a failed
      first attempt the click-and-poll step, whose throws are swallowed,
      may still turn up a link (`polled`). */
  method ExtractLink(searches: nat -> Result<Page, string>, polled: Option<string>)
    returns (link: Result<Option<string>, string>, attempts: nat)
    ensures link == LinkOf(searches, polled)
    ensures 1 <= attempts <= MAX_LINK_ATTEMPTS
    ensures searches(0).Err? ==> attempts == 1
    ensures searches(0).Ok? && FindValidIframeSource(searches(0).value).Some? ==>
      attempts == 1 && link == Ok(FindValidIframeSource(searches(0).value))
    ensures searches(0).Ok? && FindValidIframeSource(searches(0).value).None? && polled.Some? ==>
      attempts == 1 && link == Ok(polled)
    ensures searches(0).Ok? && FindValidIframeSource(searches(0).value).None? && polled.None? ==> attempts == 2
  {
    link := Ok(None);
    attempts := 0;
    while link == Ok(None) && attempts < MAX_LINK_ATTEMPTS
      invariant 0 <= attempts <= MAX_LINK_ATTEMPTS
      invariant link.Ok?
      invariant attempts == 0 ==> link == Ok(None)
      invariant attempts >= 1 ==> searches(0).Ok?
      invariant attempts == 1 ==>
        (link == Ok(None) <==> FindValidIframeSource(searches(0).value).None? && polled.None?)
      invariant attempts >= 1 && link != Ok(None) ==> link == LinkOf(searches, polled)
      invariant attempts == 2 ==>
        FindValidIframeSource(searches(0).value).None? && polled.None? && link == LinkOf(searches, polled)
      decreases MAX_LINK_ATTEMPTS - attempts
    {
      var search := searches(attempts);
      attempts := attempts + 1;
      if search.Err? {
        return Err(search.error), attempts;
      }
      link := Ok(FindValidIframeSource(search.value));
      if link == Ok(None) && attempts < MAX_LINK_ATTEMPTS {
        link := Ok(polled);
      }
    }
  }

  // ------------------------------------------------ episode-URL parsing

  /** `/<word>[\/\-]?(\d+)/i` tried at position `p`: the word in any case,
      an optional '/' or '-', and at least one digit, all captured. */
  function WordDigitsAt(s: string, word: string, p: nat): (r: Option<string>)
    requires p <= |s|
    ensures r.Some? ==> r.value != [] && forall i :: 0 <= i < |r.value| ==> IsDigit(r.value[i])
  {
    if p + |word| <= |s| && Lower(s[p..p + |word|]) == word then DigitsAfter(s, p + |word|)
    else None
  }

  /** `[\/\-]?(\d+)` at `q`: the digits, after an optional '/' or '-'. */
  function DigitsAfter(s: string, q: nat): (r: Option<string>)
    requires q <= |s|
    ensures r.Some? ==> r.value != [] && forall i :: 0 <= i < |r.value| ==> IsDigit(r.value[i])
  {
    if q + 1 < |s| && (s[q] == '/' || s[q] == '-') && IsDigit(s[q + 1]) then Some(LeadingDigits(s[q + 1..]))
    else if q < |s| && IsDigit(s[q]) then Some(LeadingDigits(s[q..]))
    else None
  }

  /** The leftmost match of `/<word>[\/\-]?(\d+)/i` at or after `p`. */
  function WordDigits(s: string, word: string, p: nat): (r: Option<string>)
    requires p <= |s|
    ensures r.Some? ==> r.value != [] && forall i :: 0 <= i < |r.value| ==> IsDigit(r.value[i])
    ensures r.Some? ==> exists k :: p <= k <= |s| && WordDigitsAt(s, word, k) == r
    ensures r.None? ==> forall k :: p <= k <= |s| ==> WordDigitsAt(s, word, k).None?
    decreases |s| - p
  {
    match WordDigitsAt(s, word, p)
    case Some(d) => Some(d)
    case None => if p == |s| then None else WordDigits(s, word, p + 1)
  }

  /** `/<c>(\d+)\/?$/`: digits right after a `c` that end the URL, or are
      followed only by a final '/'. */
  function TrailingDigits(s: string, c: char): (r: Option<string>)
    ensures r.Some? ==> r.value != [] && forall i :: 0 <= i < |r.value| ==> IsDigit(r.value[i])
    ensures r.Some? ==> EndsWith(s, [c] + r.value) || EndsWith(s, [c] + r.value + "/")
  {
    var t := WithoutFinalSlash(s);
    var body := DropWhileEnd(t, IsDigit);
    var d := t[|body|..];
    DropWhileEndSuffix(t, IsDigit);
    if d != [] && body != [] && body[|body| - 1] == c then
      MarkedDigitsEnd(s, c, |body|);
      Some(d)
    else None
  }

  /** The URL without one final '/'. */
  function WithoutFinalSlash(s: string): (t: string)
    ensures t == s || (s == t + "/")
  {
    if |s| > 0 && s[|s| - 1] == '/' then s[..|s| - 1] else s
  }

  /** Digits cut off the end after a `c` end the URL, or precede its final '/'. */
  lemma MarkedDigitsEnd(s: string, c: char, n: nat)
    requires 0 < n <= |WithoutFinalSlash(s)| && WithoutFinalSlash(s)[n - 1] == c
    ensures var t := WithoutFinalSlash(s);
      EndsWith(s, [c] + t[n..]) || EndsWith(s, [c] + t[n..] + "/")
  {
    var t := WithoutFinalSlash(s);
    assert t[n - 1..] == [c] + t[n..];
    if t != s {
      assert s[n - 1..] == [c] + t[n..] + "/";
    }
  }

  lemma {:induction false} DropWhileEndSuffix(s: string, P: char -> bool)
    ensures forall i :: |DropWhileEnd(s, P)| <= i < |s| ==> P(s[i])
    decreases |s|
  {
    if s != [] && P(s[|s| - 1]) {
      DropWhileEndSuffix(s[..|s| - 1], P);
    }
  }

  /** The episode number: capture 1 of the first of the four patterns that
      matches, tried in order, and "Unknown" when none does. */
  function EpisodeNumber(url: string): (r: string)
    ensures r == "Unknown" || (r != [] && forall i :: 0 <= i < |r| ==> IsDigit(r[i]))
    ensures WordDigits(url, "episode", 0).Some? ==> r == WordDigits(url, "episode", 0).value
  {
    match WordDigits(url, "episode", 0)
    case Some(d) => d
    case None =>
      match WordDigits(url, "ep", 0)
      case Some(d) => d
      case None =>
        match TrailingDigits(url, '/')
        case Some(d) => d
        case None =>
          match TrailingDigits(url, '-')
          case Some(d) => d
          case None => "Unknown"
  }

  /** The episode number is "Unknown" or a piece of the URL itself. */
  lemma {:induction false} EpisodeNumberInUrl(url: string)
    ensures EpisodeNumber(url) == "Unknown" || Contains(url, EpisodeNumber(url))
  {
    var r := EpisodeNumber(url);
    if WordDigits(url, "episode", 0).Some? {
      WordMatchInUrl(url, "episode");
    } else if WordDigits(url, "ep", 0).Some? {
      WordMatchInUrl(url, "ep");
    } else if TrailingDigits(url, '/').Some? {
      TrailingInUrl(url, '/');
    } else if TrailingDigits(url, '-').Some? {
      TrailingInUrl(url, '-');
    }
  }

  lemma WordMatchInUrl(url: string, word: string)
    requires WordDigits(url, word, 0).Some?
    ensures Contains(url, WordDigits(url, word, 0).value)
  {
    var k :| 0 <= k <= |url| && WordDigitsAt(url, word, k) == WordDigits(url, word, 0);
    WordMatchAtInUrl(url, word, k);
  }

  lemma WordMatchAtInUrl(url: string, word: string, k: nat)
    requires k <= |url| && WordDigitsAt(url, word, k).Some?
    ensures Contains(url, WordDigitsAt(url, word, k).value)
  {
    DigitsAfterInUrl(url, k + |word|);
  }

  lemma DigitsAfterInUrl(url: string, q: nat)
    requires q <= |url| && DigitsAfter(url, q).Some?
    ensures Contains(url, DigitsAfter(url, q).value)
  {
    if q + 1 < |url| && (url[q] == '/' || url[q] == '-') && IsDigit(url[q + 1]) {
      assert DigitsAfter(url, q) == Some(LeadingDigits(url[q + 1..]));
      DigitsInUrl(url, q + 1);
    } else {
      assert DigitsAfter(url, q) == Some(LeadingDigits(url[q..]));
      DigitsInUrl(url, q);
    }
  }

  lemma DigitsInUrl(url: string, q: nat)
    requires q <= |url|
    ensures Contains(url, LeadingDigits(url[q..]))
  {
    var d := LeadingDigits(url[q..]);
    assert url[q..q + |d|] == url[q..][..|d|];
    ContainsAt(url, d, q);
  }

  lemma TrailingInUrl(url: string, c: char)
    requires TrailingDigits(url, c).Some?
    ensures Contains(url, TrailingDigits(url, c).value)
  {
    var d := TrailingDigits(url, c).value;
    if EndsWith(url, [c] + d) {
      assert [c] + d == [c] + d + [];
      MiddleOfEnding(url, [c], d, []);
    } else {
      MiddleOfEnding(url, [c], d, "/");
    }
  }

  /** The index of the first segment equal to `word`. */
  function FindSegment(parts: seq<string>, word: string): (r: Option<nat>)
    ensures r.Some? ==> r.value < |parts| && parts[r.value] == word
    ensures r.Some? ==> forall j :: 0 <= j < r.value ==> parts[j] != word
    ensures r.None? ==> word !in parts
    decreases |parts|
  {
    if parts == [] then None
    else if parts[0] == word then Some(0)
    else match FindSegment(parts[1..], word)
      case None => None
      case Some(k) => Some(k + 1)
  }

  /** The first occurrence is found past a prefix that lacks the word. */
  lemma {:induction false} FindSegmentAfter(prefix: seq<string>, word: string, rest: seq<string>)
    requires word !in prefix
    ensures FindSegment(prefix + [word] + rest, word) == Some(|prefix|)
    decreases |prefix|
  {
    if prefix != [] {
      assert (prefix + [word] + rest)[1..] == prefix[1..] + [word] + rest;
      FindSegmentAfter(prefix[1..], word, rest);
    }
  }

  /** The segment after the first "anime" segment, when there is one and
      it is not empty. */
  function AnimeSegment(url: string): (r: Option<string>)
    ensures r.Some? ==> r.value != "" && '/' !in r.value
  {
    var parts := Split(url, '/');
    SplitPartsNoSep(url, '/');
    match FindSegment(parts, "anime")
    case Some(k) => if k + 1 < |parts| && parts[k + 1] != "" then Some(parts[k + 1]) else None
    case None => None
  }

  /** `animeId`, "unknown" by default. */
  function AnimeId(url: string): string {
    AnimeSegment(url).GetOr("unknown")
  }

  /** `animeTitle`: the id with dashes turned to spaces and word starts
      upper-cased, "Unknown Anime" by default. */
  function AnimeTitle(url: string): (t: string)
    ensures AnimeSegment(url).Some? ==> |t| == |AnimeId(url)| && '-' !in t
    ensures AnimeSegment(url).None? ==> t == "Unknown Anime"
  {
    match AnimeSegment(url)
    case Some(id) => CapitalizeWords(ReplaceChar(id, '-', ' '))
    case None => "Unknown Anime"
  }

  // ------------------------------------------------------------ the scrape

  /** What a successful scrape reports (`success: true`). */
  datatype Scraped = Scraped(animeId: string, episode: string, title: string, streamingLink: string)

  /** The result of `scrapeSingleEpisode`; timings are not modelled.
      `Rejected` is the promise rejecting with the message of what the
      browser set-up threw. */
  datatype EpisodeResult =
    | Found(scraped: Scraped, cached: bool)
    | NotFound(error: string, episodeUrl: string)
    | Rejected(message: string)

  datatype CachedScrape = CachedScrape(expiresAt: int, result: Scraped)

  /** The `data` object of a successful result. */
  datatype StreamingData = StreamingData(title: string, episodeNumber: string, streamingLink: string)

  function DataOf(s: Scraped): (d: StreamingData)
    ensures d.title == s.title && d.episodeNumber == s.episode && d.streamingLink == s.streamingLink
  {
    StreamingData(s.title, s.episode, s.streamingLink)
  }

  const NO_LINK_ERROR: string := "No valid streaming iframe found after multiple attempts"

  /** The description of an episode page whose streaming link is `link`. */
  function Describe(url: string, link: string): (s: Scraped)
    ensures s.animeId == AnimeId(url) && s.episode == EpisodeNumber(url)
    ensures s.title == AnimeTitle(url) && s.streamingLink == link
  {
    Scraped(AnimeId(url), EpisodeNumber(url), AnimeTitle(url), link)
  }

  /** A stored result is served while its expiry lies strictly ahead. */
  predicate Serves(entries: map<string, CachedScrape>, url: string, now: int) {
    url in entries && entries[url].expiresAt > now
  }

  /** What opening the page comes to: the last navigation error when both
      attempts fail; otherwise the message of a search that threw, the
      description of the page with the link the extraction settles on, or,
      with no link, the message of the debug read's throw (`debugError`) or
      the no-link error. */
  function ScrapeOutcome(url: string, nav: nat -> Option<string>, searches: nat -> Result<Page, string>,
                         polled: Option<string>, debugError: Option<string>): (r: Result<Scraped, string>)
    ensures r.Ok? ==> r.value == Describe(url, r.value.streamingLink)
    ensures r.Ok? ==> IsValidStreamingLink(r.value.streamingLink) || polled == Some(r.value.streamingLink)
    ensures r.Err? && (nav(0).None? || nav(1).None?) && LinkOf(searches, polled).Ok? && debugError.None? ==>
      r == Err(NO_LINK_ERROR)
  {
    if nav(0).Some? && nav(1).Some? then Err(nav(1).value)
    else match LinkOf(searches, polled)
      case Err(e) => Err(e)
      case Ok(Some(link)) => Ok(Describe(url, link))
      case Ok(None) => Err(debugError.GetOr(NO_LINK_ERROR))
  }

  /** Once a navigation attempt loads the page, the scrape succeeds exactly
      when the extraction settles on a link, and then describes that link;
      a search that throws reports its message. */
  lemma LoadedPageOutcome(url: string, nav: nat -> Option<string>, searches: nat -> Result<Page, string>,
                          polled: Option<string>, debugError: Option<string>)
    requires nav(0).None? || nav(1).None?
    ensures ScrapeOutcome(url, nav, searches, polled, debugError).Ok? <==>
      LinkOf(searches, polled).Ok? && LinkOf(searches, polled).value.Some?
    ensures LinkOf(searches, polled).Ok? && LinkOf(searches, polled).value.Some? ==>
      ScrapeOutcome(url, nav, searches, polled, debugError) == Ok(Describe(url, LinkOf(searches, polled).value.value))
    ensures LinkOf(searches, polled).Err? ==>
      ScrapeOutcome(url, nav, searches, polled, debugError) == Err(LinkOf(searches, polled).error)
    ensures LinkOf(searches, polled) == Ok(None) ==>
      ScrapeOutcome(url, nav, searches, polled, debugError) == Err(debugError.GetOr(NO_LINK_ERROR))
  {
  }

  /** A loaded page whose first search finds a valid iframe is scraped into
      the description with that iframe's source, whatever the rest holds. */
  lemma {:induction false} FirstIframeWins(url: string, nav: nat -> Option<string>, searches: nat -> Result<Page, string>,
                                           polled: Option<string>, debugError: Option<string>, link: string)
    requires nav(0).None? || nav(1).None?
    requires searches(0).Ok? && FindValidIframeSource(searches(0).value) == Some(link)
    ensures ScrapeOutcome(url, nav, searches, polled, debugError) == Ok(Describe(url, link))
    ensures IsValidStreamingLink(ScrapeOutcome(url, nav, searches, polled, debugError).value.streamingLink)
  {
    LoadedPageOutcome(url, nav, searches, polled, debugError);
  }

  /** The work done on an opened page: navigate, extract the link, and
      describe the episode; `Err` carries the reported error. */
  method OpenAndScrape(url: string, nav: nat -> Option<string>, searches: nat -> Result<Page, string>,
                       polled: Option<string>, debugError: Option<string>)
    returns (r: Result<Scraped, string>)
    ensures r == ScrapeOutcome(url, nav, searches, polled, debugError)
    ensures nav(0).Some? && nav(1).Some? ==> r == Err(nav(1).value)
    ensures r.Ok? ==> IsValidStreamingLink(r.value.streamingLink) || polled == Some(r.value.streamingLink)
    ensures r.Ok? ==> r.value == Describe(url, r.value.streamingLink)
    ensures r.Err? && !(nav(0).Some? && nav(1).Some?) && LinkOf(searches, polled).Ok? && debugError.None? ==>
      r == Err(NO_LINK_ERROR)
  {
    var failure, _ := SafeGoto(nav);
    if failure.Some? {
      return Err(failure.value);
    }
    var link, _ := ExtractLink(searches, polled);
    match link
    case Err(e) =>
      r := Err(e);
    case Ok(found) =>
      if found.Some? {
        r := Ok(Describe(url, found.value));
      } else if debugError.Some? {
        r := Err(debugError.value);
      } else {
        r := Err(NO_LINK_ERROR);
      }
  }

  /** The module-level `scrapeCache`. */
  class ScrapeCache {
    var entries: map<string, CachedScrape>

    /** Every stored result describes the URL it is stored under. */
    predicate Valid()
      reads this
    {
      forall u :: u in entries ==> entries[u].result == Describe(u, entries[u].result.streamingLink)
    }

    constructor ()
      ensures entries == map[] && Valid()
    {
      entries := map[];
    }

    /** `scrapeSingleEpisode(url)`.  `now` is the clock at the cache read,
        `doneAt` the clock when a result is stored; `nav`, `searches`,
        `polled` and `debugError` stand for the browser (see `SafeGoto`,
        `ExtractLink` and `ScrapeOutcome`);
        `setupError` is the message when getting the browser, opening a
        tab or setting its user agent throws, which happens outside the
        scraper's `try`.  `visited` tells whether the page was opened. */
    method ScrapeSingleEpisode(url: string, now: int, doneAt: int,
                               setupError: Option<string>,
                               nav: nat -> Option<string>, searches: nat -> Result<Page, string>,
                               polled: Option<string>, debugError: Option<string>)
      returns (r: EpisodeResult, visited: bool)
      requires Valid()
      modifies this
      ensures Valid()
      ensures r.Found? ==> r.scraped == Describe(url, r.scraped.streamingLink)
      ensures Serves(old(entries), url, now) ==>
        !visited && r == Found(old(entries)[url].result, true) && entries == old(entries)
      ensures !Serves(old(entries), url, now) && setupError.Some? ==>
        !visited && r == Rejected(setupError.value) && entries == old(entries)
      ensures !Serves(old(entries), url, now) && setupError.None? ==> visited
      ensures r.Rejected? ==> entries == old(entries)
      ensures r.NotFound? ==> entries == old(entries) && r.episodeUrl == url
      ensures visited && r.Found? ==>
        !r.cached && (IsValidStreamingLink(r.scraped.streamingLink) || polled == Some(r.scraped.streamingLink)) &&
        r.scraped == Describe(url, r.scraped.streamingLink) &&
        entries == old(entries)[url := CachedScrape(doneAt + CACHE_TTL_MS, r.scraped)]
      ensures visited && nav(0).Some? && nav(1).Some? ==> r == NotFound(nav(1).value, url)
      ensures visited ==>
        match ScrapeOutcome(url, nav, searches, polled, debugError)
        case Ok(found) =>
          r == Found(found, false) && entries == old(entries)[url := CachedScrape(doneAt + CACHE_TTL_MS, found)]
        case Err(e) => r == NotFound(e, url) && entries == old(entries)
    {
      if url in entries && entries[url].expiresAt > now {
        return Found(entries[url].result, true), false;
      }
      if setupError.Some? {
        return Rejected(setupError.value), false;
      }
      visited := true;
      var outcome := OpenAndScrape(url, nav, searches, polled, debugError);
      match outcome
      case Ok(result) =>
        entries := entries[url := CachedScrape(doneAt + CACHE_TTL_MS, result)];
        r := Found(result, false);
      case Err(e) =>
        r := NotFound(e, url);
    }
  }
}
