/** The `/episode-stream` route: checks the `id` and `ep` query parameters,
    builds the episode page URL on the 123animes mirror, scrapes it through
    the shared scrape cache and answers 200, 400 or 404. */
module EpisodeStream {
  import opened Wrappers
  import opened Text
  import opened SingleEpisode

  const HOST: string := "https://w1.123animes.ru"
  const MISSING_ERROR: string := "Both id and ep parameters are required"
  const MISSING_EXAMPLE: string := "http://localhost:5000/episode-stream?id=sentai-daishikkaku-2nd-season-dub&ep=1"
  const NOT_POSITIVE_ERROR: string := "Episode number must be a positive integer"
  const NOT_POSITIVE_EXAMPLE: string := "http://localhost:5000/episode-stream?id=anime-name&ep=1"

  /** The answers of the route; timings are not modelled. */
  datatype StreamResponse =
    | Streamed(animeId: string, episode: string, data: StreamingData)
    | NotStreamed(error: string, animeId: string, episode: string)
    | BadRequest(error: string, example: string)
    | ServerError(error: string)

  function Status(r: StreamResponse): nat {
    match r
    case Streamed(_, _, _) => 200
    case NotStreamed(_, _, _) => 404
    case BadRequest(_, _) => 400
    case ServerError(_) => 500
  }

  /** The episode page scraped for `id` and `ep`. */
  function EpisodeUrl(id: string, ep: string): string {
    HOST + "/anime/" + id + "/episode/" + ep
  }

  /** `isNaN(ep) || ep < 1`, where `number` is JavaScript's conversion of
      the text to a number (None for NaN).  A fraction such as "1.5" passes. */
  predicate NotPositive(ep: string, number: string -> Option<real>) {
    number(ep).None? || number(ep).value < 1.0
  }

  /** The anime id read back from the episode URL is the requested id, when
      the id is one path segment. */
  lemma AnimeIdRoundTrip(id: string, ep: string)
    requires id != "" && '/' !in id
    ensures AnimeSegment(EpisodeUrl(id, ep)) == Some(id) && AnimeId(EpisodeUrl(id, ep)) == id
  {
    UrlLayout(id, ep);
    assert |"anime"| == 5 && |"https:"| == 6 && |"w1.123animes.ru"| == 15;
    AnimeIdAfterHost("https:", "w1.123animes.ru", id, ep);
  }

  /** The episode URL, cut at its slashes. */
  lemma UrlLayout(id: string, ep: string)
    ensures EpisodeUrl(id, ep) ==
      "https:" + "/" + ("" + "/" + ("w1.123animes.ru" + "/" + ("anime" + "/" + (id + "/" + ("episode" + "/" + ep)))))
  {
    assert HOST == "https:" + "/" + ("" + "/" + "w1.123animes.ru");
  }

  /** The same, for any host "a//c" without an "anime" segment. */
  lemma AnimeIdAfterHost(a: string, c: string, id: string, ep: string)
    requires '/' !in a && '/' !in c && a != "anime" && c != "anime"
    requires id != "" && '/' !in id
    ensures AnimeSegment(a + "/" + ("" + "/" + (c + "/" + ("anime" + "/" + (id + "/" + ("episode" + "/" + ep)))))) == Some(id)
  {
    var path := "anime" + "/" + (id + "/" + ("episode" + "/" + ep));
    HostSegments(a, c, path);
    PathSegments(id, ep);
    var rest := [id] + Split("episode" + "/" + ep, '/');
    assert [a, "", c] + (["anime"] + rest) == [a, "", c] + ["anime"] + rest;
    FindSegmentAfter([a, "", c], "anime", rest);
  }

  /** The segments of "a//c/<path>". */
  lemma HostSegments(a: string, c: string, path: string)
    requires '/' !in a && '/' !in c
    ensures Split(a + "/" + ("" + "/" + (c + "/" + path)), '/') == [a, "", c] + Split(path, '/')
  {
    SplitAppend(a, '/', "" + "/" + (c + "/" + path));
    SplitAppend("", '/', c + "/" + path);
    SplitAppend(c, '/', path);
    SplitNoSep(a, '/');
    SplitNoSep(c, '/');
  }

  /** The segments of "anime/<id>/episode/<ep>". */
  lemma PathSegments(id: string, ep: string)
    requires '/' !in id
    ensures Split("anime" + "/" + (id + "/" + ("episode" + "/" + ep)), '/') ==
      ["anime"] + ([id] + Split("episode" + "/" + ep, '/'))
  {
    SplitAppend("anime", '/', id + "/" + ("episode" + "/" + ep));
    SplitAppend(id, '/', "episode" + "/" + ep);
    SplitNoSep("anime", '/');
    SplitNoSep(id, '/');
  }

  /** A description of the episode URL names the requested id. */
  lemma DescribedId(id: string, ep: string, data: Scraped)
    requires id != "" && '/' !in id && data == Describe(EpisodeUrl(id, ep), data.streamingLink)
    ensures data.animeId == id
  {
    AnimeIdRoundTrip(id, ep);
  }

  /** The title reported for the episode URL is made from the requested id:
      dashes become spaces and words start upper-cased. */
  lemma DescribedTitle(id: string, ep: string, link: string)
    requires id != "" && '/' !in id
    ensures DataOf(Describe(EpisodeUrl(id, ep), link)).title == CapitalizeWords(ReplaceChar(id, '-', ' '))
  {
    AnimeIdRoundTrip(id, ep);
  }

  /** Both parameters are present and `ep` reads as a number of at least 1. */
  predicate Accepted(id: string, ep: string, number: string -> Option<real>) {
    id != "" && ep != "" && !NotPositive(ep, number)
  }

  /** `GET /episode-stream?id=…&ep=…`; a parameter that is absent is the
      empty text.  The scrape arguments are those of
      `ScrapeCache.ScrapeSingleEpisode`; a rejected scrape reaches the
      route's `catch`, which answers 500 with the message. */
  method GetEpisodeStream(cache: ScrapeCache, id: string, ep: string, number: string -> Option<real>,
                          now: int, doneAt: int, setupError: Option<string>,
                          nav: nat -> Option<string>, searches: nat -> Result<Page, string>,
                          polled: Option<string>, debugError: Option<string>)
    returns (resp: StreamResponse)
    requires cache.Valid()
    modifies cache
    ensures cache.Valid()
    ensures id == "" || ep == "" ==> resp == BadRequest(MISSING_ERROR, MISSING_EXAMPLE)
    ensures id != "" && ep != "" && NotPositive(ep, number) ==>
      resp == BadRequest(NOT_POSITIVE_ERROR, NOT_POSITIVE_EXAMPLE)
    ensures resp.BadRequest? ==> cache.entries == old(cache.entries)
    ensures !resp.BadRequest? ==> Accepted(id, ep, number)
    ensures resp.Streamed? || resp.NotStreamed? ==> resp.animeId == id && resp.episode == ep
    ensures resp.Streamed? ==> resp.data == DataOf(Describe(EpisodeUrl(id, ep), resp.data.streamingLink))
    ensures resp.Streamed? && '/' !in id ==> resp.data.title == CapitalizeWords(ReplaceChar(id, '-', ' '))
    ensures Accepted(id, ep, number) && Serves(old(cache.entries), EpisodeUrl(id, ep), now) ==>
      resp == Streamed(id, ep, DataOf(old(cache.entries)[EpisodeUrl(id, ep)].result)) &&
      cache.entries == old(cache.entries)
    ensures Accepted(id, ep, number) && !Serves(old(cache.entries), EpisodeUrl(id, ep), now) &&
            setupError.Some? ==>
      resp == ServerError(setupError.value) && cache.entries == old(cache.entries)
    ensures Accepted(id, ep, number) && !Serves(old(cache.entries), EpisodeUrl(id, ep), now) &&
            setupError.None? ==>
      match ScrapeOutcome(EpisodeUrl(id, ep), nav, searches, polled, debugError)
      case Ok(found) =>
        resp == Streamed(id, ep, DataOf(found)) &&
        cache.entries == old(cache.entries)[EpisodeUrl(id, ep) := CachedScrape(doneAt + CACHE_TTL_MS, found)]
      case Err(e) => resp == NotStreamed(e, id, ep) && cache.entries == old(cache.entries)
  {
    if id == "" || ep == "" {
      return BadRequest(MISSING_ERROR, MISSING_EXAMPLE);
    }
    if NotPositive(ep, number) {
      return BadRequest(NOT_POSITIVE_ERROR, NOT_POSITIVE_EXAMPLE);
    }
    var url := EpisodeUrl(id, ep);
    var result, _ := cache.ScrapeSingleEpisode(url, now, doneAt, setupError, nav, searches, polled, debugError);
    match result
    case Found(scraped, _) =>
      if '/' !in id {
        DescribedTitle(id, ep, scraped.streamingLink);
      }
      resp := Streamed(id, ep, DataOf(scraped));
    case NotFound(error, _) =>
      resp := NotStreamed(error, id, ep);
    case Rejected(message) =>
      resp := ServerError(message);
  }
}
