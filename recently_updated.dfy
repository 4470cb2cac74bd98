/** The "recently updated (dub)" widget of 123anime: collect up to fifteen
    entries from every widget's dub tab, drop duplicates, cap the list at
    sixty, and enrich every entry with an English title looked up on Kitsu
    and a Japanese title (a fixed table first, romanized kana otherwise).
    The page is given as the widgets' extracted fields, and the Kitsu search
    is a parameter. */
module RecentlyUpdatedDub {
  import opened Wrappers
  import opened Text
  import opened Dedup
  import opened Concurrency
  import opened TitleCompare
  import opened DubText
  import Romanize

  const CARDS_PER_WIDGET: nat := 15
  const MAX_ITEMS: nat := 60
  const CONCURRENCY: int := 6
  const SECTION: string := "recently_updated"
  const KIND: string := "dub"

  // ------------------------------------------------------------ collection

  /** The `.status` element of a card: the texts of its `.ep` and `.epi`. */
  datatype Status = Status(epText: string, epiText: string)

  /** One `.film-list .item` card: its resolved href ('' when neither link
      has one), its title candidates in the order `data-title`,
      `data-jtitle`, text of `a.name`, `data-title` of `a.poster`, its
      resolved image ('' when none) and its status, if any. */
  datatype Card = Card(href: string, titles: seq<string>, image: string, status: Option<Status>)

  /** A `div.widget`: the cards of its first `.content[data-name="dub"]`,
      `None` when it has no dub tab. */
  datatype Widget = Widget(dub: Option<seq<Card>>)

  /** A collected entry; '' stands for `null`. */
  datatype Item = Item(title: string, href: string, image: string, episode: Option<nat>)

  /** The first run of digits of the `.ep` text (or of the `.epi` text when
      that is empty), read as a decimal number. */
  function Episode(st: Option<Status>): (e: Option<nat>)
    ensures st.None? ==> e.None?
    ensures st.Some? ==>
      var t := FirstNonEmpty([st.value.epText, st.value.epiText]);
      (e.None? <==> forall i :: 0 <= i < |t| ==> !IsDigit(t[i]))
  {
    match st
    case None => None
    case Some(s) =>
      var t := FirstNonEmpty([s.epText, s.epiText]);
      var run := FirstDigitRun(t, |t| + 1);
      if run == [] then None else Some(DecimalValue(run))
  }

  function ItemOf(c: Card): Item {
    Item(Trim(FirstNonEmpty(c.titles)), c.href, c.image, Episode(c.status))
  }

  /** A card is pushed when it has an href or a non-blank title. */
  predicate Pushed(c: Card) {
    c.href != "" || Trim(FirstNonEmpty(c.titles)) != ""
  }

  /** The entries the first cards of one dub tab contribute. */
  function CardItems(cs: seq<Card>): (r: seq<Item>)
    ensures |r| <= |cs|
    decreases |cs|
  {
    if cs == [] then []
    else
      var last := cs[|cs| - 1];
      CardItems(cs[..|cs| - 1]) + (if Pushed(last) then [ItemOf(last)] else [])
  }

  /** One more card adds its entry, when it is pushed, after the others'. */
  lemma CardItemsStep(cs: seq<Card>, j: nat)
    requires j < |cs|
    ensures CardItems(cs[..j + 1]) == CardItems(cs[..j]) + (if Pushed(cs[j]) then [ItemOf(cs[j])] else [])
  {
    assert cs[..j + 1][..j] == cs[..j];
  }

  function WidgetItems(w: Widget): seq<Item> {
    match w.dub
    case None => []
    case Some(cs) => CardItems(Take(cs, CARDS_PER_WIDGET))
  }

  /** Everything the nested `each` loops push, widget by widget. */
  function Collected(ws: seq<Widget>): seq<Item>
    decreases |ws|
  {
    if ws == [] then [] else Collected(ws[..|ws| - 1]) + WidgetItems(ws[|ws| - 1])
  }

  /** The inner `each` over the first fifteen cards of a dub tab. */
  method CollectWidget(w: Widget) returns (items: seq<Item>)
    ensures items == WidgetItems(w)
  {
    items := [];
    if w.dub.None? {
      return;
    }
    var cs := Take(w.dub.value, CARDS_PER_WIDGET);
    var j := 0;
    while j < |cs|
      invariant 0 <= j <= |cs|
      invariant items == CardItems(cs[..j])
    {
      CardItemsStep(cs, j);
      var c := cs[j];
      if Pushed(c) {
        items := items + [ItemOf(c)];
      }
      j := j + 1;
    }
    assert cs[..j] == cs;
  }

  /** The outer `each` over the page's widgets. */
  method CollectItems(ws: seq<Widget>) returns (items: seq<Item>)
    ensures items == Collected(ws)
  {
    items := [];
    var i := 0;
    while i < |ws|
      invariant 0 <= i <= |ws|
      invariant items == Collected(ws[..i])
    {
      assert ws[..i + 1][..i] == ws[..i];
      var more := CollectWidget(ws[i]);
      items := items + more;
      i := i + 1;
    }
    assert ws[..i] == ws;
  }

  /** No widget contributes more than fifteen entries. */
  lemma {:induction false} CollectedBound(ws: seq<Widget>)
    ensures |Collected(ws)| <= CARDS_PER_WIDGET * |ws|
    decreases |ws|
  {
    if ws != [] {
      CollectedBound(ws[..|ws| - 1]);
      var w := ws[|ws| - 1];
      if w.dub.Some? {
        assert |Take(w.dub.value, CARDS_PER_WIDGET)| <= CARDS_PER_WIDGET;
      }
    }
  }

  // ------------------------------------------------------------- dedup

  predicate HasHrefOrTitle(it: Item) { it.title != "" || it.href != "" }
  function ItemKey(it: Item): string { HrefTitleKey(it.href, it.title) }

  /** The filtered, de-duplicated and capped list. */
  function Deduped(items: seq<Item>): seq<Item> {
    Take(FirstByKey(items, HasHrefOrTitle, ItemKey, {}), MAX_ITEMS)
  }

  /** The list handed to the mapper holds at most 60 entries, each with an
      href or a title, no two with the same case-blind href-and-title key,
      all taken from the page. */
  lemma {:induction false} DedupedShape(items: seq<Item>)
    ensures |Deduped(items)| <= MAX_ITEMS
    ensures forall i :: 0 <= i < |Deduped(items)| ==> HasHrefOrTitle(Deduped(items)[i])
    ensures forall i, j :: 0 <= i < j < |Deduped(items)| ==> ItemKey(Deduped(items)[i]) != ItemKey(Deduped(items)[j])
    ensures forall x :: x in Deduped(items) ==> x in items
  {
    FirstByKeyDistinct(items, HasHrefOrTitle, ItemKey, {});
    FirstByKeyFromInput(items, HasHrefOrTitle, ItemKey, {});
  }

  // ------------------------------------------------------- English title

  /** One Kitsu search hit: its canonical title and its English and
      romanized-English titles ('' when absent). */
  datatype KitsuAnime = KitsuAnime(canonicalTitle: string, en: string, enJp: string)

  /** The search term sent to Kitsu. */
  function SearchTitle(title: string): string {
    Trim(RemoveDubWord(title))
  }

  /** A hit's canonical title compares equal to the search term. */
  predicate SameTitle(a: KitsuAnime, search: string) {
    NormalizeForCompare(a.canonicalTitle) == NormalizeForCompare(search)
  }

  /** The first hit whose canonical title compares equal to the search term. */
  function FirstMatching(data: seq<KitsuAnime>, search: string): (r: Option<nat>)
    ensures r.Some? ==> r.value < |data| && SameTitle(data[r.value], search)
    ensures r.Some? ==> forall j :: 0 <= j < r.value ==> !SameTitle(data[j], search)
    ensures r.None? <==> forall j :: 0 <= j < |data| ==> !SameTitle(data[j], search)
  {
    FirstTrueFrom(Matches(data, search), 0)
  }

  /** Which hits compare equal to the search term. */
  function Matches(data: seq<KitsuAnime>, search: string): (bs: seq<bool>)
    ensures |bs| == |data|
    ensures forall i :: 0 <= i < |data| ==> bs[i] == SameTitle(data[i], search)
  {
    seq(|data|, i requires 0 <= i < |data| => SameTitle(data[i], search))
  }

  /** The scan for the first `true` from position `from` on. */
  function FirstTrueFrom(bs: seq<bool>, from: nat): (r: Option<nat>)
    requires from <= |bs|
    ensures r.Some? ==> from <= r.value < |bs| && bs[r.value]
    ensures r.Some? ==> forall j :: from <= j < r.value ==> !bs[j]
    ensures r.None? <==> forall j :: from <= j < |bs| ==> !bs[j]
    decreases |bs| - from
  {
    if from == |bs| then None
    else if bs[from] then Some(from)
    else FirstTrueFrom(bs, from + 1)
  }

  /** The chosen hit: the first that compares equal, else the first. */
  function BestMatch(data: seq<KitsuAnime>, search: string): (best: KitsuAnime)
    requires data != []
    ensures best in data
  {
    match FirstMatching(data, search)
    case Some(k) => data[k]
    case None => data[0]
  }

  function EnglishName(a: KitsuAnime): string {
    FirstNonEmpty([a.en, a.enJp, a.canonicalTitle])
  }

  /** `fetchEnglishTitle(title, 'dub')`.  `kitsu(term)` is the search: `None`
      when the request fails, otherwise the hits; a failed or empty search
      and a hit without any title give `null`. */
  function EnglishTitle(title: string, kitsu: string -> Option<seq<KitsuAnime>>): (r: Option<string>)
    ensures title == "" ==> r.None?
    ensures r.Some? ==> EndsWith(r.value, " (Dub)") && |r.value| > 6
  {
    if title == "" then None
    else
      var search := SearchTitle(title);
      match kitsu(search)
      case None => None
      case Some(data) =>
        if data == [] then None
        else
          var english := EnglishName(BestMatch(data, search));
          if english == "" then None else Some(english + " (Dub)")
  }

  /** When the search has hits, the English title is the chosen hit's
      English name with " (Dub)" appended, and stripping the dub marks gives
      that name back whenever it holds no "dub" of its own. */
  lemma {:induction false} EnglishTitleRoundTrip(title: string, kitsu: string -> Option<seq<KitsuAnime>>)
    requires title != ""
    requires kitsu(SearchTitle(title)).Some? && kitsu(SearchTitle(title)).value != []
    ensures var e := EnglishName(BestMatch(kitsu(SearchTitle(title)).value, SearchTitle(title)));
      (e != "" && NoDub(e) && !IsSpace(e[|e| - 1])) ==>
      (EnglishTitle(title, kitsu) == Some(e + " (Dub)") && StripDubMarks(EnglishTitle(title, kitsu).value) == e)
  {
    var search := SearchTitle(title);
    var e := EnglishName(BestMatch(kitsu(search).value, search));
    EnglishTitleOfHits(title, kitsu);
    if e != "" && NoDub(e) && !IsSpace(e[|e| - 1]) {
      StripDubbed(EnglishTitle(title, kitsu), e);
    }
  }

  /** Stripping the dub marks from a name with " (Dub)" appended gives the name back. */
  lemma StripDubbed(r: Option<string>, e: string)
    requires e != "" && NoDub(e) && !IsSpace(e[|e| - 1])
    requires r == Some(e + " (Dub)")
    ensures r == Some(e + " (Dub)") && StripDubMarks(r.value) == e
  {
    DubSuffixRoundTrip(e);
  }

  /** With hits, the English title is the chosen hit's English name plus " (Dub)", or none when that name is empty. */
  lemma EnglishTitleOfHits(title: string, kitsu: string -> Option<seq<KitsuAnime>>)
    requires title != ""
    requires kitsu(SearchTitle(title)).Some? && kitsu(SearchTitle(title)).value != []
    ensures var e := EnglishName(BestMatch(kitsu(SearchTitle(title)).value, SearchTitle(title)));
      EnglishTitle(title, kitsu) == if e == "" then None else Some(e + " (Dub)")
  {
  }

  // ------------------------------------------------------ Japanese title

  const BANISHED_EN: string := "The Banished Court Magician Aims to Become the Strongest"
  const BANISHED_ROMAJI: string :=
    "Mikata ga Yowasugite Hojo Mahou ni Tesshiteita Kyuutei Mahoushi, Tsuihou sarete Saikyou wo Mezashimasu"

  /** `ENGLISH_TO_JAPANESE_ROMAJI_MAP`. */
  const ROMAJI_TABLE: map<string, string> := map[BANISHED_EN := BANISHED_ROMAJI]

  /** The Japanese title: the table's entry for the English title with its
      dub marks stripped, else the romanized scraped title. */
  function JapaneseTitleWith(table: map<string, string>, title: string, english: Option<string>): (r: Option<string>)
    ensures var base := Trim(StripDubMarks(english.GetOr("")));
      base in table ==> r == Some(table[base])
    ensures var base := Trim(StripDubMarks(english.GetOr("")));
      base !in table ==> r == Romanize.Romanized(Some(title))
  {
    var base := Trim(StripDubMarks(english.GetOr("")));
    if base in table then Some(table[base]) else Romanize.Romanized(Some(title))
  }

  function JapaneseTitle(title: string, english: Option<string>): Option<string> {
    JapaneseTitleWith(ROMAJI_TABLE, title, english)
  }

  /** When Kitsu's English name for the chosen hit is a key of the table,
      holds no "dub" and has no whitespace at either end, the table's romaji
      is the Japanese title: the " (Dub)" appended to the English title is
      stripped again before the lookup. */
  lemma {:induction false} TableTitleMapped(table: map<string, string>, title: string, kitsu: string -> Option<seq<KitsuAnime>>)
    requires title != ""
    requires kitsu(SearchTitle(title)).Some? && kitsu(SearchTitle(title)).value != []
    requires var e := EnglishName(BestMatch(kitsu(SearchTitle(title)).value, SearchTitle(title)));
      e in table && NoDub(e) && e != "" && !IsSpace(e[0]) && !IsSpace(e[|e| - 1])
    ensures var e := EnglishName(BestMatch(kitsu(SearchTitle(title)).value, SearchTitle(title)));
      JapaneseTitleWith(table, title, EnglishTitle(title, kitsu)) == Some(table[e])
  {
    var e := EnglishName(BestMatch(kitsu(SearchTitle(title)).value, SearchTitle(title)));
    EnglishTitleRoundTrip(title, kitsu);
    TrimKeepsUnspaced(e);
  }

  // ------------------------------------------------------------- output

  /** One entry of the result; `dub` is the episode number. */
  datatype DubEntry = DubEntry(
    title: string, englishTitle: Option<string>, japaneseTitle: Option<string>,
    href: string, image: string, dub: Option<nat>,
    source: string, section: string, kind: string)

  function Enrich(it: Item, source: string, kitsu: string -> Option<seq<KitsuAnime>>): DubEntry {
    var english := EnglishTitle(it.title, kitsu);
    DubEntry(it.title, english, JapaneseTitle(it.title, english), it.href, it.image, it.episode,
      source, SECTION, KIND)
  }

  /** `scrapeRecentlyUpdatedDub($, resolveUrl, source)`: every de-duplicated
      entry, enriched, in page order. */
  method ScrapeRecentlyUpdatedDub(ws: seq<Widget>, source: string, kitsu: string -> Option<seq<KitsuAnime>>)
    returns (r: seq<Slot<DubEntry>>)
    ensures var d := Deduped(Collected(ws));
      |r| == |d| && forall i :: 0 <= i < |d| ==> r[i] == Value(Enrich(d[i], source, kitsu))
  {
    var items := CollectItems(ws);
    var unique := DedupLoop(items, HasHrefOrTitle, ItemKey);
    var dedup := Take(unique, MAX_ITEMS);
    var claims;
    r, claims := MapWithConcurrency(dedup, (it: Item, i: nat) => Some(Enrich(it, source, kitsu)), CONCURRENCY);
  }
}
