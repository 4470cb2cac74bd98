/** The watch routes: `GET /api/v2/anime/:animeId/episodes` validates the
    slug, answers from the "watch" cache (thirty minutes by default) or
    asks HiAnime's episode-list endpoint for the number at the end of the
    slug, and reports an upstream HTTP status as its own; the legacy
    `GET /watch/:animetitle` only points at the new route.  The upstream
    request is a parameter (URL in, parsed episode anchors or an error
    out), as is `Number()`. */
module Watch {
  import opened Wrappers
  import opened Text
  import opened Each
  import opened SimpleCache

  const WATCH_TTL: int := 1000 * 60 * 30
  const AJAX_URL: string := "https://hianime.to/ajax"
  const ID_REQUIRED: string := "Anime ID parameter is required"
  const ID_FORMAT: string := "Invalid anime ID format"
  const FETCH_PREFIX: string := "Failed to fetch episodes: "
  const TITLE_REQUIRED: string := "Anime title parameter is required"
  const DEPRECATED: string := "This endpoint is deprecated. Please use /api/v2/anime/:animeId/episodes instead"
  const LEGACY_EXAMPLE: string := "/api/v2/anime/one-piece-100/episodes"

  /** One `.detail-infor-content .ss-list a`: its attributes (`None` when
      absent) and whether it has the filler class. */
  datatype Anchor = Anchor(title: Option<string>, href: Option<string>, dataNumber: Option<string>, isFiller: bool)

  /** `number` is `None` for NaN. */
  datatype Episode = Episode(title: Option<string>, episodeId: Option<string>, number: Option<real>, isFiller: bool)

  datatype EpisodeList = EpisodeList(totalEpisodes: nat, episodes: seq<Episode>)

  /** What the upstream call throws: an HTTP error response, or anything else. */
  datatype UpstreamError = HttpError(status: int, statusText: string) | OtherError(message: string)

  datatype WatchResponse =
    | BadRequest(error: string)
    | Episodes(data: EpisodeList, cached: bool)
    | Failed(status: int, error: string)

  function Status(r: WatchResponse): int {
    match r
    case BadRequest(_) => 400
    case Episodes(_, _) => 200
    case Failed(status, _) => status
  }

  /** The number the episode list is asked for: the text after the last '-'. */
  function NumericId(animeId: string): (n: string)
    ensures '-' !in n
  {
    LastSegment(animeId, '-')
  }

  function EpisodeListUrl(animeId: string): string {
    AJAX_URL + "/v2/episode/list/" + NumericId(animeId)
  }

  /** The slug's own number: for `<name>-<digits>` it is the digits. */
  lemma NumericIdOfSlug(name: string, id: string)
    requires '-' !in id
    ensures NumericId(name + "-" + id) == id
  {
    assert name + "-" + id == name + ['-'] + id;
    LastSegmentAfter(name, '-', id);
  }

  /** The episode an anchor gives. */
  function EpisodeOf(a: Anchor, number: string -> Option<real>): (e: Episode)
    ensures a.title.Some? && Trim(a.title.value) != "" ==> e.title == Some(Trim(a.title.value))
    ensures e.title.None? <==> a.title.None? || Trim(a.title.value) == ""
    ensures e.episodeId.Some? ==> e.episodeId.value != "" && '/' !in e.episodeId.value
    ensures a.href.None? ==> e.episodeId.None?
    ensures a.dataNumber.None? ==> e.number.None?
    ensures e.isFiller == a.isFiller
  {
    var title := if a.title.Some? && Trim(a.title.value) != "" then Some(Trim(a.title.value)) else None;
    var id := if a.href.Some? && LastSegment(a.href.value, '/') != "" then Some(LastSegment(a.href.value, '/')) else None;
    Episode(title, id, if a.dataNumber.Some? then number(a.dataNumber.value) else None, a.isFiller)
  }

  /** An href's last path segment is the episode id. */
  lemma EpisodeIdOfHref(path: string, id: string, a: Anchor, number: string -> Option<real>)
    requires id != "" && '/' !in id && a.href == Some(path + "/" + id)
    ensures EpisodeOf(a, number).episodeId == Some(id)
  {
    assert path + "/" + id == path + ['/'] + id;
    LastSegmentAfter(path, '/', id);
  }

  /** A blank id is refused first, then one without a '-'. */
  function Validate(animeId: string): (r: Option<string>)
    ensures r == Some(ID_REQUIRED) <==> Trim(animeId) == ""
    ensures r == Some(ID_FORMAT) <==> Trim(animeId) != "" && '-' !in animeId
    ensures r.None? <==> Trim(animeId) != "" && '-' in animeId
  {
    if Trim(animeId) == "" then Some(ID_REQUIRED)
    else if '-' !in animeId then Some(ID_FORMAT)
    else None
  }

  /** The status and message of a failed upstream call. */
  function FailureOf(e: UpstreamError): (r: WatchResponse)
    ensures r.Failed?
    ensures e.HttpError? ==> Status(r) == e.status && r.error == FETCH_PREFIX + e.statusText
    ensures e.OtherError? ==> Status(r) == 500 && r.error == e.message
  {
    match e
    case HttpError(status, text) => Failed(status, FETCH_PREFIX + text)
    case OtherError(message) => Failed(500, message)
  }

  /** `GET /api/v2/anime/:animeId/episodes`.  `now` is the clock at the
      cache read, `doneAt` the clock when the list is stored, after the
      upstream request.  The namespace is the module's "watch" namespace,
      created with the thirty-minute default. */
  method GetEpisodes(ns: Namespace<EpisodeList>, animeId: string, now: int, doneAt: int,
                     upstream: string -> Result<seq<Anchor>, UpstreamError>, number: string -> Option<real>)
    returns (resp: WatchResponse)
    requires ns.defaultTtl == WATCH_TTL
    modifies ns
    ensures Validate(animeId).Some? ==> resp == BadRequest(Validate(animeId).value) && ns.entries == old(ns.entries)
    ensures Validate(animeId).None? && Lookup(old(ns.entries), animeId, now).Some? ==>
      resp == Episodes(Lookup(old(ns.entries), animeId, now).value, true) && ns.entries == old(ns.entries)
    ensures Validate(animeId).None? && Lookup(old(ns.entries), animeId, now).None? ==>
      match upstream(EpisodeListUrl(animeId))
      case Err(e) => resp == FailureOf(e) && ns.entries == AfterRead(old(ns.entries), animeId, now)
      case Ok(anchors) =>
        resp.Episodes? && !resp.cached && resp.data.totalEpisodes == |anchors| == |resp.data.episodes| &&
        (forall i :: 0 <= i < |anchors| ==> resp.data.episodes[i] == EpisodeOf(anchors[i], number)) &&
        ns.entries == AfterRead(old(ns.entries), animeId, now)[animeId := Entry(resp.data, doneAt + WATCH_TTL)]
  {
    var invalid := Validate(animeId);
    if invalid.Some? {
      return BadRequest(invalid.value);
    }
    var cached := ns.Get(animeId, now);
    if cached.Some? {
      return Episodes(cached.value, true);
    }
    var fetched := upstream(EpisodeListUrl(animeId));
    if fetched.Err? {
      return FailureOf(fetched.error);
    }
    var episodes := EachPush(fetched.value, (_: nat, a: Anchor) => EpisodeOf(a, number));
    assert forall i :: 0 <= i < |episodes| ==> episodes[i] == EpisodeOf(fetched.value[i], number);
    var result := EpisodeList(|episodes|, episodes);
    ns.Set(animeId, result, None, doneAt);
    resp := Episodes(result, false);
  }

  /** The episode list stays served from the cache for thirty minutes. */
  lemma ListCachedThirtyMinutes(m: map<string, Entry<EpisodeList>>, animeId: string, list: EpisodeList, setAt: nat, later: int)
    requires setAt <= later < setAt + WATCH_TTL
    ensures Lookup(m[animeId := Entry(list, ExpiryFor(WATCH_TTL, setAt))], animeId, later) == Some(list)
  {
    SetThenLookup(m, animeId, list, WATCH_TTL, setAt, later);
  }

  /** The new route the old one points to: head, title, tail. */
  const NEW_ROUTE_HEAD: string := "/api/v2/anime/"
  const NEW_ROUTE_TAIL: string := "/episodes"

  datatype LegacyResponse =
    | LegacyBadRequest(error: string)
    | MovedPermanently(message: string, newEndpoint: string, example: string)

  /** `GET /watch/:animetitle`: 400 for a blank title, otherwise always 301
      with the new route for the same text. */
  function Legacy(animetitle: string): (r: LegacyResponse)
    ensures r.LegacyBadRequest? <==> Trim(animetitle) == ""
    ensures r.MovedPermanently? ==> |r.newEndpoint| == |NEW_ROUTE_HEAD| + |animetitle| + |NEW_ROUTE_TAIL|
    ensures r.MovedPermanently? ==> StartsWith(r.newEndpoint, NEW_ROUTE_HEAD) && EndsWith(r.newEndpoint, NEW_ROUTE_TAIL)
    ensures r.MovedPermanently? ==> r.newEndpoint[|NEW_ROUTE_HEAD|..|r.newEndpoint| - |NEW_ROUTE_TAIL|] == animetitle
  {
    if Trim(animetitle) == "" then LegacyBadRequest(TITLE_REQUIRED)
    else
      Framed(NEW_ROUTE_HEAD, animetitle, NEW_ROUTE_TAIL);
      MovedPermanently(DEPRECATED, NEW_ROUTE_HEAD + animetitle + NEW_ROUTE_TAIL, LEGACY_EXAMPLE)
  }

  function LegacyStatus(r: LegacyResponse): int {
    if r.LegacyBadRequest? then 400 else 301
  }
}
