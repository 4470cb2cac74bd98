/** The 123anime list pages read item by item: a genre page (which numbers
    its items) and an A-Z letter page (which does not).  Each
    `.film-list .item` element becomes one entry, in document order. */
module AzList {
  import opened Wrappers
  import opened Text
  import opened Listing
  import opened DubText
  import opened Each

  /** What the scraper reads from one `.film-list .item`: the `.name` text,
      the poster's attributes, and the `.ep` text. */
  datatype RawItem = RawItem(name: string, img: ImageAttrs, epText: string)

  /** One listed anime; `sub` and `dub` are None where the page has `false`. */
  datatype Listed = Listed(title: string, image: string, sub: Option<string>, dub: Option<string>, episodes: string)

  /** A genre-page entry: the listed anime and its position. */
  datatype GenreEntry = GenreEntry(index: nat, item: Listed)

  /** `/\bDub$/i`: the title ends in the word "dub", any case. */
  predicate IsDubTitle(t: string) {
    |t| >= 3 && IsDubWordAt(t, |t| - 3)
  }

  /** A title ending in " Dub" is a dub title. */
  lemma DubTitleSuffix(t: string)
    ensures IsDubTitle(t + " Dub")
  {
    var s := t + " Dub";
    assert s[|t|..] == " Dub";
  }

  /** "Dub" glued to the end of a word ("ScoobyDub") does not make a dub
      title: the word boundary is required. */
  lemma GluedDubIsNotDubTitle(t: string)
    requires t != [] && IsWordChar(t[|t| - 1])
    ensures !IsDubTitle(t + "Dub")
  {
    var s := t + "Dub";
    assert s[|s| - 4] == t[|t| - 1];
  }

  /** The episode count: the `.ep` text without its first "Ep ", trimmed. */
  function EpisodesOf(epText: string): string {
    Trim(ReplaceFirst(epText, "Ep ", ""))
  }

  /** `sub` and `dub`: the episode text goes to `dub` for a dub title and
      to `sub` otherwise, and neither is set without it. */
  function SubDub(episodes: string, isDub: bool): (p: (Option<string>, Option<string>))
    ensures p.0.None? || p.1.None?
    ensures p.0.Some? ==> p.0.value == episodes != "" && !isDub
    ensures p.1.Some? ==> p.1.value == episodes != "" && isDub
    ensures episodes != "" ==> p.0.Some? || p.1.Some?
  {
    var present := if episodes == "" then None else Some(episodes);
    if isDub then (None, present) else (present, None)
  }

  /** The per-item rule of both pages. */
  function ListedOf(el: RawItem): (r: Listed)
    ensures r.title == Trim(el.name) && r.episodes == EpisodesOf(el.epText)
    ensures r.image == PosterImage(el.img)
    ensures (r.sub, r.dub) == SubDub(r.episodes, IsDubTitle(r.title))
  {
    var title := Trim(el.name);
    var episodes := EpisodesOf(el.epText);
    TrimKeepsUnspaced(title);
    var p := SubDub(episodes, IsDubTitle(Trim(title)));
    Listed(title, PosterImage(el.img), p.0, p.1, episodes)
  }

  /** `scrapeAnimeByGenre(genre, page)` after the page is fetched: one entry
      per item, numbered from 1 in document order. */
  method ScrapeAnimeByGenre(els: seq<RawItem>) returns (list: seq<GenreEntry>)
    ensures |list| == |els|
    ensures forall i :: 0 <= i < |els| ==> list[i] == GenreEntry(i + 1, ListedOf(els[i]))
  {
    list := EachPush(els, (i: nat, el: RawItem) => GenreEntry(i + 1, ListedOf(el)));
  }

  /** `scrapeAnimeByLetter(letter, page)` after the page is fetched: the
      same entries, without a number. */
  method ScrapeAnimeByLetter(els: seq<RawItem>) returns (list: seq<Listed>)
    ensures |list| == |els|
    ensures forall i :: 0 <= i < |els| ==> list[i] == ListedOf(els[i])
  {
    list := EachPush(els, (_: nat, el: RawItem) => ListedOf(el));
  }
}
