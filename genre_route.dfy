/** `GET /genere/:genre?page=…`: reads the page number, the site's total
    count for the genre, and the genre page's entries, and answers with the
    entries and the pagination fields. */
module GenreRoute {
  import opened Wrappers
  import opened Text
  import opened Listing
  import opened AzList

  datatype Pagination = Pagination(
    currentPage: int, totalFound: nat, totalCounts: Option<int>,
    hasNextPage: bool, hasPreviousPage: bool, nextPage: Option<int>, previousPage: Option<int>)

  /** The answers; timings and timestamps are not modelled. */
  datatype GenreResponse =
    | GenreList(data: seq<GenreEntry>, pagination: Pagination, message: string, sourceUrl: string)
    | GenreFailed(error: string, pagination: Pagination)
    | Unanswered(thrown: string)

  /** What the error handler throws: it reads `start`, which was declared
      inside the `try` block and is out of scope there. */
  const START_NOT_DEFINED: string := "start is not defined"

  /** `parseInt(req.query.page) || 1`; an absent parameter parses as NaN. */
  function PageOf(param: Option<string>): (page: int)
    ensures page != 0
  {
    match param
    case None => 1
    case Some(s) =>
      match ParseInt(s)
      case Some(v) => if v != 0 then v else 1
      case None => 1
  }

  /** A page number written out is read back as that page; NaN and 0 read
      as page 1. */
  lemma PageRoundTrip(p: int)
    ensures PageOf(Some(IntToString(p))) == if p == 0 then 1 else p
    ensures PageOf(None) == 1
  {
    ParseIntRoundTrip(p);
  }

  /** `total_counts`: the digits of the first `.total` text as a number;
      None when the page could not be fetched or has no digit. */
  function TotalCounts(totalText: Option<string>): (r: Option<int>)
    ensures r.Some? ==> totalText.Some? && Digits(totalText.value) != "" && r.value >= 0
  {
    match totalText
    case None => None
    case Some(t) =>
      var d := Digits(t);
      if d == "" then None else Some(DecimalValue(d))
  }

  /** A count printed among words without digits is read back exactly
      ("1,234" reads as 1234, since every non-digit is dropped). */
  lemma TotalCountsReadsNumber(before: string, n: nat, after: string)
    requires Digits(before) == "" && Digits(after) == ""
    ensures TotalCounts(Some(before + NatToString(n) + after)) == Some(n)
  {
    var d := NatToString(n);
    DigitsAppend(before + d, after);
    DigitsAppend(before, d);
    DigitsOfDigits(d);
    assert Digits(before + d + after) == d;
    DecimalRoundTrip(n);
  }

  /** The pagination block of a successful answer. */
  function Paginate(page: int, found: nat, totalCounts: Option<int>): (p: Pagination)
    ensures p.currentPage == page && p.totalFound == found && p.totalCounts == totalCounts
    ensures p.hasNextPage <==> found > 0
    ensures p.hasPreviousPage <==> page > 1
    ensures p.nextPage == if found > 0 then Some(page + 1) else None
    ensures p.previousPage == if page > 1 then Some(page - 1) else None
  {
    Pagination(page, found, totalCounts, found > 0, page > 1,
      if found > 0 then Some(page + 1) else None,
      if page > 1 then Some(page - 1) else None)
  }

  /** Following `next_page` from a page at or after the first leads to a
      page whose `previous_page` is where we came from. */
  lemma NextThenPrevious(page: int, found: nat, totalCounts: Option<int>, found': nat, totalCounts': Option<int>)
    requires page >= 1 && found > 0
    ensures Paginate(page, found, totalCounts).nextPage.Some?
    ensures Paginate(Paginate(page, found, totalCounts).nextPage.value, found', totalCounts').previousPage == Some(page)
  {
  }

  /** The pagination block of the 500 answer. */
  function FailedPagination(param: Option<string>): (p: Pagination)
    ensures p.currentPage == PageOf(param) && p.totalFound == 0 && p.totalCounts == Some(0)
    ensures !p.hasNextPage && !p.hasPreviousPage && p.nextPage.None? && p.previousPage.None?
  {
    Pagination(PageOf(param), 0, Some(0), false, false, None, None)
  }

  function SourceUrl(genre: string, page: int): string {
    SITE + "/genere/" + genre + "?page=" + IntToString(page)
  }

  function Message(genre: string, page: int): string {
    "Anime list for genre '" + genre + "' - Page " + IntToString(page)
  }

  /** The success answer: the genre page's entries, numbered from 1, and
      the pagination block.  The index the handler puts first in each entry
      is overwritten by the entry's own, so the entries pass unchanged. */
  method Answer(genre: string, page: int, totalCounts: Option<int>, els: seq<RawItem>)
    returns (resp: GenreResponse)
    ensures resp.GenreList? && |resp.data| == |els|
    ensures forall i :: 0 <= i < |resp.data| ==>
      resp.data[i].index == i + 1 && resp.data[i].item == ListedOf(els[i])
    ensures resp.pagination == Paginate(page, |els|, totalCounts)
    ensures resp.sourceUrl == SourceUrl(genre, page) && resp.message == Message(genre, page)
  {
    var result := ScrapeAnimeByGenre(els);
    resp := GenreList(result, Paginate(page, |result|, totalCounts), Message(genre, page), SourceUrl(genre, page));
  }

  /** The handler as written.  `totalText` is the `.total` text of the
      page (None when its fetch fails) and `fetched` the genre page's items
      (Err when the scraper throws).  On a failure the error handler itself
      throws, so the handler's promise rejects instead of answering 500. */
  method GetGenre(genre: string, pageParam: Option<string>, totalText: Option<string>,
                  fetched: Result<seq<RawItem>, string>)
    returns (resp: GenreResponse)
    ensures fetched.Err? ==> resp == Unanswered(START_NOT_DEFINED)
    ensures fetched.Ok? ==> resp.GenreList? && |resp.data| == |fetched.value|
    ensures fetched.Ok? ==> forall i :: 0 <= i < |resp.data| ==>
      resp.data[i].index == i + 1 && resp.data[i].item == ListedOf(fetched.value[i])
    ensures fetched.Ok? ==>
      resp.pagination == Paginate(PageOf(pageParam), |fetched.value|, TotalCounts(totalText)) &&
      resp.sourceUrl == SourceUrl(genre, PageOf(pageParam))
  {
    if fetched.Err? {
      return Unanswered(START_NOT_DEFINED);
    }
    resp := Answer(genre, PageOf(pageParam), TotalCounts(totalText), fetched.value);
  }

  /** The handler with a working error branch: a failure answers 500 with
      the error and an empty pagination block. */
  method GetGenreCorrected(genre: string, pageParam: Option<string>, totalText: Option<string>,
                           fetched: Result<seq<RawItem>, string>)
    returns (resp: GenreResponse)
    ensures fetched.Err? ==> resp == GenreFailed(fetched.error, FailedPagination(pageParam))
    ensures fetched.Ok? ==> resp.GenreList? && |resp.data| == |fetched.value|
    ensures fetched.Ok? ==> forall i :: 0 <= i < |resp.data| ==>
      resp.data[i].index == i + 1 && resp.data[i].item == ListedOf(fetched.value[i])
    ensures fetched.Ok? ==>
      resp.pagination == Paginate(PageOf(pageParam), |fetched.value|, TotalCounts(totalText)) &&
      resp.sourceUrl == SourceUrl(genre, PageOf(pageParam))
  {
    if fetched.Err? {
      return GenreFailed(fetched.error, FailedPagination(pageParam));
    }
    resp := Answer(genre, PageOf(pageParam), TotalCounts(totalText), fetched.value);
  }
}
