/** `scrapeAnimeSearch(query)`: the 123anime search page read with the first
    item selector that matches anything.  Each item gives a title (with any
    "(Dub)" moved to the end), a Japanese title read from the poster file
    name, a sub/dub type, the poster image and the episode digits; items
    without a title are skipped. */
module Search {
  import opened Wrappers
  import opened Text
  import opened Listing
  import opened DubText
  import opened Each

  const ERROR_PREFIX: string := "Failed to scrape search results: "

  // ---------------------------------------------------- the "(Dub)" rewrite

  /** "(dub)" in any case starts at `i`. */
  predicate IsDubParenAt(s: string, i: nat) {
    i + 5 <= |s| && s[i] == '(' && IsDubAt(s, i + 1) && s[i + 4] == ')'
  }

  predicate NoDubParen(s: string) {
    forall i :: 0 <= i < |s| ==> !IsDubParenAt(s, i)
  }

  /** `/\s*\(Dub\)/i` matches at `i`: the whitespace run from `i`, then
      "(dub)".  Giving back a space cannot help, as "(" must follow. */
  predicate MatchesAt(s: string, i: nat)
    requires i <= |s|
  {
    IsDubParenAt(s, i + SpaceRun(s, i))
  }

  /** The leftmost match at or after `from`. */
  function FirstMatch(s: string, from: nat): (r: Option<nat>)
    requires from <= |s|
    ensures r.Some? ==> from <= r.value <= |s| && MatchesAt(s, r.value)
    ensures r.Some? ==> forall j :: from <= j < r.value ==> !MatchesAt(s, j)
    ensures r.None? ==> forall j :: from <= j <= |s| ==> !MatchesAt(s, j)
    decreases |s| - from
  {
    if MatchesAt(s, from) then Some(from)
    else if from == |s| then None
    else FirstMatch(s, from + 1)
  }

  /** `/\(Dub\)/i.test(s)` holds exactly when the leftmost-match search finds one. */
  lemma TestMeansMatch(s: string)
    ensures FirstMatch(s, 0).Some? <==> !NoDubParen(s)
  {
    if !NoDubParen(s) {
      var j :| 0 <= j < |s| && IsDubParenAt(s, j);
      assert SpaceRun(s, j) == 0;
      assert MatchesAt(s, j);
    }
  }

  /** The title rule: a title holding "(Dub)" in any case loses its first
      such mark with the whitespace before it, is trimmed, and gets
      " (Dub)" at the end; other titles stay as they are. */
  function MoveDub(t: string): (r: string)
    ensures NoDubParen(t) ==> r == t
    ensures !NoDubParen(t) ==> EndsWith(r, " (Dub)")
  {
    TestMeansMatch(t);
    match FirstMatch(t, 0)
    case None => t
    case Some(i) => MoveMarkAt(t, i)
  }

  /** The mark matched at `i` cut out, the rest trimmed, " (Dub)" appended. */
  function MoveMarkAt(t: string, i: nat): (r: string)
    requires i <= |t| && MatchesAt(t, i)
    ensures EndsWith(r, " (Dub)")
  {
    var r := Trim(t[..i] + t[i + SpaceRun(t, i) + 5..]) + " (Dub)";
    assert r[|r| - 6..] == " (Dub)";
    r
  }

  /** A title that already ends in its only " (Dub)" is left as it is. */
  lemma MoveDubKeepsSuffixed(y: string)
    requires NoDubParen(y) && (y == [] || (!IsSpace(y[0]) && !IsSpace(y[|y| - 1])))
    ensures MoveDub(y + " (Dub)") == y + " (Dub)"
  {
    FirstMatchOfSuffixed(y);
    CutMark(y);
    TrimKeepsUnspaced(y);
  }

  /** The first match in a suffixed title is the appended mark. */
  lemma FirstMatchOfSuffixed(y: string)
    requires NoDubParen(y) && (y == [] || !IsSpace(y[|y| - 1]))
    ensures FirstMatch(y + " (Dub)", 0) == Some(|y|)
  {
    SuffixMatch(y);
    NoMatchInside(y);
    FirstMatchIs(y + " (Dub)", 0, |y|);
  }

  /** Cutting the appended mark gives the title back. */
  lemma CutMark(y: string)
    ensures SpaceRun(y + " (Dub)", |y|) == 1
    ensures var s := y + " (Dub)"; s[..|y|] + s[|y| + 6..] == y
  {
    SuffixLayout(y);
    SuffixMatch(y);
    CutEnd(y + " (Dub)", |y|);
  }

  lemma CutEnd(s: string, n: nat)
    requires n + 6 == |s|
    ensures s[..n] + s[n + 6..] == s[..n]
  {
    assert s[n + 6..] == [];
  }

  /** The search finds the first match. */
  lemma {:induction false} FirstMatchIs(s: string, from: nat, k: nat)
    requires from <= k <= |s| && MatchesAt(s, k)
    requires forall j :: from <= j < k ==> !MatchesAt(s, j)
    ensures FirstMatch(s, from) == Some(k)
    decreases k - from
  {
    if from < k {
      FirstMatchIs(s, from + 1, k);
    }
  }

  /** The appended mark is a match of length 6. */
  lemma SuffixMatch(y: string)
    ensures SpaceRun(y + " (Dub)", |y|) == 1
    ensures MatchesAt(y + " (Dub)", |y|)
  {
    SuffixLayout(y);
    SpaceThenMark(y + " (Dub)", |y|);
  }

  /** A single space before "(dub)" is the whole whitespace run. */
  lemma SpaceThenMark(s: string, n: nat)
    requires n + 1 < |s| && IsSpace(s[n]) && s[n + 1] == '(' && !IsSpace(s[n + 1])
    requires IsDubAt(s, n + 2) && n + 6 <= |s| && s[n + 5] == ')'
    ensures SpaceRun(s, n) == 1
    ensures MatchesAt(s, n)
  {
    assert SpaceRun(s, n + 1) == 0;
  }

  /** No match starts inside the title itself. */
  lemma NoMatchInside(y: string)
    requires NoDubParen(y) && (y == [] || !IsSpace(y[|y| - 1]))
    ensures forall j :: 0 <= j < |y| ==> !MatchesAt(y + " (Dub)", j)
  {
    var s := y + " (Dub)";
    SuffixLayout(y);
    forall j | 0 <= j < |y| ensures !MatchesAt(s, j) {
      var q := j + SpaceRun(s, j);
      assert s[|y| - 1] == y[|y| - 1];
      assert q < |y|;
      if q + 5 <= |y| {
        assert s[q..q + 5] == y[q..q + 5];
        assert !IsDubParenAt(y, q);
      }
    }
  }

  // ---------------------------------------------------------- the items

  /** One `(parent text, own text)` pair per selector that matched, None
      for the selectors that did not. */
  type Found = Option<(string, string)>

  /** The text of the first selector that matched: its parent's trimmed
      text, else its own; "" when no selector matched. */
  function FirstFoundText(found: seq<Found>): (r: string)
    ensures (forall k :: 0 <= k < |found| ==> found[k].None?) ==> r == ""
  {
    if found == [] then ""
    else match found[0]
      case Some(texts) => FirstNonEmpty([Trim(texts.0), Trim(texts.1)])
      case None => FirstFoundText(found[1..])
  }

  /** What the scraper reads from one item element. */
  datatype RawSearchItem = RawSearchItem(
    nameText: string,       // first of `.name a, .film-name a, .dynamic-name, .title a, h3 a`
    jtitle: string,         // `a[data-jtitle]`'s attribute, "" when absent
    alt: string,            // the `img` alt, "" when absent
    img: ImageAttrs,
    episodeFound: seq<Found>,   // `.fa-tv`, `.ep-num`, `.episode`, `[class*="ep"]`, `.item-head .is-sub`
    statusFound: seq<Found>,    // `.dot`, `.status`, `.film-infor .fdi-item`, `.is-sub`, `.is-dub`
    hasIsSub: bool, hasSubClass: bool, hasIsDub: bool, hasDubClass: bool)

  datatype SearchResult = SearchResult(title: string, japaneseTitle: string, kind: string, image: string, episode: Option<string>)

  /** The type: which of sub and dub was found. */
  function TypeOf(hasSub: bool, hasDub: bool): (t: string)
    ensures t == "sub/dub" <==> hasSub && hasDub
    ensures t == "sub" <==> hasSub && !hasDub
    ensures t == "dub" <==> hasDub && !hasSub
    ensures t == "" <==> !hasSub && !hasDub
  {
    if hasDub && !hasSub then "dub"
    else if hasSub && !hasDub then "sub"
    else if hasDub && hasSub then "sub/dub"
    else ""
  }

  function TitleOf(el: RawSearchItem): string {
    MoveDub(FirstNonEmpty([Trim(el.nameText), el.jtitle, el.alt]))
  }

  /** The item's result, None when its title is empty. */
  function ResultOf(el: RawSearchItem): (r: Option<SearchResult>)
    ensures r.Some? <==> TitleOf(el) != ""
    ensures r.Some? ==> r.value.title == TitleOf(el)
    ensures r.Some? ==> r.value.image == "" || (StartsWith(r.value.image, "http") && !Contains(r.value.image, NO_POSTER))
    ensures r.Some? ==> r.value.image == "" ==> r.value.japaneseTitle == ""
    ensures r.Some? && r.value.episode.Some? ==>
      r.value.episode.value != "" && forall i :: 0 <= i < |r.value.episode.value| ==> IsDigit(r.value.episode.value[i])
  {
    var title := TitleOf(el);
    if title == "" then None
    else
      var image := PosterImage(el.img);
      var episode := Digits(FirstFoundText(el.episodeFound));
      var status := Lower(FirstFoundText(el.statusFound));
      var hasSub := Contains(status, "sub") || el.hasIsSub || el.hasSubClass;
      var hasDub := Contains(status, "dub") || el.hasIsDub || el.hasDubClass;
      Some(SearchResult(title, if image != "" then PosterTitle(image) else "", TypeOf(hasSub, hasDub),
        image, if episode == "" then None else Some(episode)))
  }

  /** The items of the first selector that matched anything, none if no
      selector did. */
  function FirstMatched(groups: seq<seq<RawSearchItem>>): (els: seq<RawSearchItem>)
    ensures els == [] || els in groups
    ensures forall k :: 0 <= k < |groups| && groups[k] != [] ==> els != []
  {
    if groups == [] then []
    else if groups[0] != [] then groups[0]
    else FirstMatched(groups[1..])
  }

  /** `scrapeAnimeSearch(query)` after the fetch: `groups` holds what each
      of the five item selectors matched, in selector order.  A failure is
      thrown again with the search prefix. */
  method ScrapeAnimeSearch(fetched: Result<seq<seq<RawSearchItem>>, string>)
    returns (r: Result<seq<SearchResult>, string>)
    ensures fetched.Err? ==> r == Err(ERROR_PREFIX + fetched.error)
    ensures fetched.Ok? ==> r == Ok(Pushed(FirstMatched(fetched.value), (_: nat, el: RawSearchItem) => ResultOf(el)))
  {
    if fetched.Err? {
      return Err(ERROR_PREFIX + fetched.error);
    }
    var groups := fetched.value;
    var results: seq<SearchResult> := [];
    var k := 0;
    while k < |groups|
      invariant 0 <= k <= |groups|
      invariant forall j :: 0 <= j < k ==> groups[j] == []
      invariant results == []
    {
      if groups[k] != [] {
        results := EachPushSome(groups[k], (_: nat, el: RawSearchItem) => ResultOf(el));
        FirstMatchedAt(groups, k);
        return Ok(results);
      }
      k := k + 1;
    }
    FirstMatchedNone(groups);
    r := Ok(results);
  }

  lemma {:induction false} FirstMatchedAt(groups: seq<seq<RawSearchItem>>, k: nat)
    requires k < |groups| && groups[k] != []
    requires forall j :: 0 <= j < k ==> groups[j] == []
    ensures FirstMatched(groups) == groups[k]
    decreases k
  {
    if k > 0 {
      FirstMatchedAt(groups[1..], k - 1);
    }
  }

  lemma {:induction false} FirstMatchedNone(groups: seq<seq<RawSearchItem>>)
    requires forall j :: 0 <= j < |groups| ==> groups[j] == []
    ensures FirstMatched(groups) == []
    decreases |groups|
  {
    if groups != [] {
      FirstMatchedNone(groups[1..]);
    }
  }

  /** Every emitted result has a title, and comes from an item of the
      first matching selector, in the items' order. */
  lemma SearchResultsFromItems(groups: seq<seq<RawSearchItem>>)
    ensures var els := FirstMatched(groups);
      var f := (_: nat, el: RawSearchItem) => ResultOf(el);
      var out := Pushed(els, f);
      var ix := PushedFrom(els, f);
      forall k :: 0 <= k < |out| ==> ix[k] < |els| && out[k].title == TitleOf(els[ix[k]]) != ""
  {
  }
}
