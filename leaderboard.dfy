/** The HiAnime leaderboards (`scrapeHiAnimeTop10`, `…WeeklyTop10`,
    `…MonthlyTop10`): passes over the chart's items that push ranked
    entries into `results`, keep the titles seen in `processedTitles`, and
    stop at ten; the entries are then keyed 1..n. */
module Leaderboard {
  import opened Wrappers
  import opened Text
  import opened Each
  import Romanize
  import Uri

  const CAP: nat := 10

  const TOP_ERROR: string := "Scraping Error"
  const WEEKLY_ERROR: string := "Weekly Scraping Error"
  const MONTHLY_ERROR: string := "Monthly Scraping Error"

  /** One `.tick-item`: its classes and its text. */
  datatype Tick = Tick(isSub: bool, isDub: bool, text: string)

  /** What the scraper reads from one chart item: the title element's text
      and `title` attribute ("" when absent), the poster's `data-src` and
      `src` ("" when absent), and the tick items. */
  datatype ChartItem = ChartItem(nameText: string, nameAttr: string, dataSrc: string, src: string, ticks: seq<Tick>)

  /** The chosen chart section: its `.item-top` items and its other `li` items. */
  datatype Section = Section(tops: seq<ChartItem>, list: seq<ChartItem>)

  /** The first pass reads the `.item-top` items, the others plain list items. */
  datatype Pass = TopPass | ListPass(category: string)

  /** An entry of `results`; an empty image stands for `null`. */
  datatype Ranked = Ranked(title: string, image: string, rank: nat, sub: seq<string>, dub: seq<string>, category: string)

  /** An entry of the returned object; `None` stands for a field that is
      `null` (img) or absent (japanese, category). */
  datatype Entry = Entry(index: nat, rank: nat, title: string, japanese: Option<string>, img: Option<string>,
                         dub: seq<string>, sub: seq<string>, category: Option<string>)

  // ------------------------------------------------------------- one item

  function SubTick(i: nat, t: Tick): Option<string> {
    if t.isSub && Trim(t.text) != "" then Some(Trim(t.text)) else None
  }

  function DubTick(i: nat, t: Tick): Option<string> {
    if t.isDub && Trim(t.text) != "" then Some(Trim(t.text)) else None
  }

  /** The inner `.tick-item` loop, filling both episode lists. */
  method TickEpisodes(ticks: seq<Tick>) returns (sub: seq<string>, dub: seq<string>)
    ensures sub == Pushed(ticks, SubTick) && dub == Pushed(ticks, DubTick)
    ensures forall k :: 0 <= k < |sub| ==> sub[k] != ""
    ensures forall k :: 0 <= k < |dub| ==> dub[k] != ""
  {
    sub, dub := [], [];
    var i := 0;
    while i < |ticks|
      invariant 0 <= i <= |ticks|
      invariant sub == Pushed(ticks[..i], SubTick) && dub == Pushed(ticks[..i], DubTick)
    {
      assert ticks[..i + 1][..i] == ticks[..i];
      var ep := Trim(ticks[i].text);
      if ticks[i].isSub && ep != "" {
        sub := sub + [ep];
      }
      if ticks[i].isDub && ep != "" {
        dub := dub + [ep];
      }
      i := i + 1;
    }
    assert ticks[..i] == ticks;
    TicksNonEmpty(ticks, SubTick);
    TicksNonEmpty(ticks, DubTick);
  }

  lemma TicksNonEmpty(ticks: seq<Tick>, f: (nat, Tick) -> Option<string>)
    requires forall i: nat, t :: f(i, t).Some? ==> f(i, t).value != ""
    ensures forall k :: 0 <= k < |Pushed(ticks, f)| ==> Pushed(ticks, f)[k] != ""
  {
    var ix := PushedFrom(ticks, f);
    forall k | 0 <= k < |Pushed(ticks, f)| ensures Pushed(ticks, f)[k] != "" {
      assert f(ix[k], ticks[ix[k]]) == Some(Pushed(ticks, f)[k]);
    }
  }

  /** A top item's title is the trimmed text; a list item falls back on
      the `title` attribute. */
  function TitleOf(pass: Pass, item: ChartItem): string {
    if pass.TopPass? then Trim(item.nameText) else FirstNonEmpty([Trim(item.nameText), item.nameAttr])
  }

  /** `data-src || src || null`. */
  function ImageOf(item: ChartItem): string {
    FirstNonEmpty([item.dataSrc, item.src])
  }

  function CategoryOf(pass: Pass): string {
    if pass.TopPass? then "top" else pass.category
  }

  function TitlesOf(results: seq<Ranked>): set<string> {
    set k | 0 <= k < |results| :: results[k].title
  }

  /** The push condition: a title, longer than three characters for list
      items, not seen before. */
  predicate Admits(pass: Pass, results: seq<Ranked>, title: string) {
    title != "" && (pass.TopPass? || |title| > 3) && title !in TitlesOf(results)
  }

  /** One iteration on the item at `i`, once the cap check has passed. */
  function Step(pass: Pass, results: seq<Ranked>, i: nat, item: ChartItem): seq<Ranked> {
    var title := TitleOf(pass, item);
    if Admits(pass, results, title) then
      results + [Ranked(title, ImageOf(item), if pass.TopPass? then i + 1 else |results| + 1,
                        Pushed(item.ticks, SubTick), Pushed(item.ticks, DubTick), CategoryOf(pass))]
    else results
  }

  /** The each-loop from item `i` on; it stops once ten entries are held. */
  function PassFrom(pass: Pass, results: seq<Ranked>, items: seq<ChartItem>, i: nat): seq<Ranked>
    decreases |items| - i
  {
    if i >= |items| || |results| >= CAP then results
    else PassFrom(pass, Step(pass, results, i, items[i]), items, i + 1)
  }

  // ------------------------------------------------------------ the passes

  /** One each-loop over `items`, pushing into `results` and `seen`. */
  method RunPass(pass: Pass, items: seq<ChartItem>, results0: seq<Ranked>, seen0: set<string>)
    returns (results: seq<Ranked>, seen: set<string>)
    requires seen0 == TitlesOf(results0)
    ensures results == PassFrom(pass, results0, items, 0)
    ensures seen == TitlesOf(results)
  {
    results, seen := results0, seen0;
    var i := 0;
    while i < |items|
      invariant 0 <= i <= |items|
      invariant PassFrom(pass, results, items, i) == PassFrom(pass, results0, items, 0)
      invariant seen == TitlesOf(results)
    {
      if |results| >= CAP {
        break;
      }
      results, seen := Visit(pass, results, seen, i, items[i]);
      i := i + 1;
    }
  }

  /** The body of the each-callback on the item at `i`. */
  method Visit(pass: Pass, results0: seq<Ranked>, seen0: set<string>, i: nat, item: ChartItem)
    returns (results: seq<Ranked>, seen: set<string>)
    requires seen0 == TitlesOf(results0)
    ensures results == Step(pass, results0, i, item)
    ensures seen == TitlesOf(results)
  {
    results, seen := results0, seen0;
    var title := if pass.TopPass? then Trim(item.nameText) else FirstNonEmpty([Trim(item.nameText), item.nameAttr]);
    var image := FirstNonEmpty([item.dataSrc, item.src]);
    var sub, dub := TickEpisodes(item.ticks);
    if title != "" && (pass.TopPass? || |title| > 3) && title !in seen {
      var entry := Ranked(title, image, if pass.TopPass? then i + 1 else |results| + 1, sub, dub, CategoryOf(pass));
      TitlesOfPush(results, entry);
      seen := seen + {title};
      results := results + [entry];
    }
  }

  lemma TitlesOfPush(results: seq<Ranked>, r: Ranked)
    ensures TitlesOf(results + [r]) == TitlesOf(results) + {r.title}
  {
    var s := results + [r];
    assert s[|results|] == r;
    forall t | t in TitlesOf(s) ensures t in TitlesOf(results) + {r.title} {
      var k :| 0 <= k < |s| && s[k].title == t;
      if k < |results| {
        assert results[k].title == t;
      }
    }
    forall t | t in TitlesOf(results) ensures t in TitlesOf(s) {
      var k :| 0 <= k < |results| && results[k].title == t;
      assert s[k].title == t;
    }
  }

  // ------------------------------------------------------- what the passes keep

  /** What the results promise: at most ten entries with distinct,
      non-empty titles; a list entry has a title longer than three
      characters and is ranked by its place; no rank is below its place. */
  predicate Ranking(results: seq<Ranked>) {
    |results| <= CAP &&
    (forall k, l :: 0 <= k < l < |results| ==> results[k].title != results[l].title) &&
    (forall k :: 0 <= k < |results| ==> results[k].title != "" && results[k].rank >= k + 1) &&
    (forall k :: 0 <= k < |results| && results[k].category != "top" ==> |results[k].title| > 3 && results[k].rank == k + 1)
  }

  /** One iteration appends at most one entry, of the pass's category. */
  lemma StepAppends(pass: Pass, results: seq<Ranked>, i: nat, item: ChartItem)
    ensures |Step(pass, results, i, item)| <= |results| + 1
    ensures results <= Step(pass, results, i, item)
    ensures forall k :: |results| <= k < |Step(pass, results, i, item)| ==> Step(pass, results, i, item)[k].category == CategoryOf(pass)
  {
  }

  lemma StepKeepsRanking(pass: Pass, results: seq<Ranked>, i: nat, item: ChartItem)
    requires Ranking(results) && |results| < CAP
    requires pass.TopPass? ==> |results| <= i
    requires pass.ListPass? ==> pass.category != "top"
    ensures Ranking(Step(pass, results, i, item))
  {
    var title := TitleOf(pass, item);
    if Admits(pass, results, title) {
      var s := Step(pass, results, i, item);
      forall k | 0 <= k < |results| ensures results[k].title != title {
        assert results[k].title in TitlesOf(results);
      }
      assert s[|results|].title == title;
    }
  }

  /** A pass only appends, and only entries of its own category. */
  lemma {:induction false} PassAppends(pass: Pass, results: seq<Ranked>, items: seq<ChartItem>, i: nat)
    ensures results <= PassFrom(pass, results, items, i)
    ensures forall k :: |results| <= k < |PassFrom(pass, results, items, i)| ==> PassFrom(pass, results, items, i)[k].category == CategoryOf(pass)
    decreases |items| - i
  {
    if i < |items| && |results| < CAP {
      var next := Step(pass, results, i, items[i]);
      var out := PassFrom(pass, next, items, i + 1);
      assert PassFrom(pass, results, items, i) == out;
      StepAppends(pass, results, i, items[i]);
      PassAppends(pass, next, items, i + 1);
      forall k | |results| <= k < |out| ensures out[k].category == CategoryOf(pass) {
        if k < |next| {
          assert out[k] == next[k];
        }
      }
    }
  }

  /** A pass keeps the ranking promise. */
  lemma {:induction false} PassKeepsRanking(pass: Pass, results: seq<Ranked>, items: seq<ChartItem>, i: nat)
    requires Ranking(results)
    requires pass.TopPass? ==> |results| <= i
    requires pass.ListPass? ==> pass.category != "top"
    ensures Ranking(PassFrom(pass, results, items, i))
    decreases |items| - i
  {
    if i < |items| && |results| < CAP {
      StepKeepsRanking(pass, results, i, items[i]);
      StepAppends(pass, results, i, items[i]);
      PassKeepsRanking(pass, Step(pass, results, i, items[i]), items, i + 1);
    }
  }

  // --------------------------------------------------------- the output object

  /** `romanizeJapanese(title) || title`. */
  function JapaneseOf(title: string): (j: string)
    ensures title != "" ==> j != ""
  {
    match Romanize.Romanized(Some(title))
    case Some(r) => if r != "" then r else title
    case None => title
  }

  /** The image with the title as a query parameter, or "" without an image. */
  function ImgOf(r: Ranked): (img: string)
    ensures img == "" <==> r.image == ""
  {
    if r.image != "" then r.image + "?title=" + Uri.EncodeURIComponent(r.title) else ""
  }

  /** The `map` step: the entry at place `index` (from 1). */
  function EntryOf(index: nat, r: Ranked, withCategory: bool): (e: Entry)
    ensures e.index == index && e.rank == r.rank && e.title == r.title
    ensures e.japanese.Some? && (r.title != "" ==> e.japanese.value != "")
    ensures e.img.Some? && (e.img.value == "" <==> r.image == "")
    ensures e.category.Some? <==> withCategory
  {
    Entry(index, r.rank, r.title, Some(JapaneseOf(r.title)), Some(ImgOf(r)), r.dub, r.sub,
          if withCategory then Some(r.category) else None)
  }

  /** The image URL carries exactly the title: after the image and
      "?title=" comes a value with no query delimiters that decodes to the
      title's UTF-8 bytes. */
  lemma ImgCarriesTitle(r: Ranked)
    requires r.image != ""
    ensures exists q ::
      ImgOf(r) == r.image + "?title=" + q && Uri.IsEncoded(q) && Uri.PercentDecode(q) == Some(Uri.Utf8String(r.title))
  {
    Uri.EncodeURIComponentRoundTrip(r.title);
    assert Uri.IsEncoded(Uri.EncodeURIComponent(r.title));
  }

  /** The object is keyed 1..n, each key holding the entry of that place. */
  ghost predicate KeyedFrom(obj: map<nat, Entry>, results: seq<Ranked>, withCategory: bool) {
    (forall k: nat :: k in obj <==> 1 <= k <= Min(|results|, CAP)) &&
    (forall k :: k in obj ==> 1 <= k <= |results| && obj[k] == EntryOf(k, results[k - 1], withCategory))
  }

  /** `results.slice(0, 10).map(…)`: the entry of each place, numbered from 1. */
  function FinalResults(results: seq<Ranked>, withCategory: bool): (entries: seq<Entry>)
    ensures |entries| == Min(|results|, CAP)
    ensures forall k :: 0 <= k < |entries| ==> entries[k] == EntryOf(k + 1, results[k], withCategory)
  {
    var n := Min(|results|, CAP);
    seq(n, k requires 0 <= k < n => EntryOf(k + 1, results[k], withCategory))
  }

  /** Each final entry carries its place as its index. */
  lemma FinalIndexes(results: seq<Ranked>, withCategory: bool)
    ensures var entries := FinalResults(results, withCategory);
      forall k :: 0 <= k < |entries| ==> entries[k].index == k + 1
  {
  }

  /** The `forEach` that puts every entry under its own index. */
  method KeyByIndex(entries: seq<Entry>) returns (obj: map<nat, Entry>)
    requires forall k :: 0 <= k < |entries| ==> entries[k].index == k + 1
    ensures forall k: nat :: k in obj <==> 1 <= k <= |entries|
    ensures forall k :: k in obj ==> obj[k] == entries[k - 1] && obj[k].index == k
  {
    obj := map[];
    var i := 0;
    while i < |entries|
      invariant 0 <= i <= |entries|
      invariant forall k: nat :: k in obj <==> 1 <= k <= i
      invariant forall k :: k in obj ==> 1 <= k <= i && obj[k] == entries[k - 1]
    {
      obj := obj[entries[i].index := entries[i]];
      i := i + 1;
    }
  }

  /** Both steps: the object keyed 1..n from the results. */
  method Keyed(results: seq<Ranked>, withCategory: bool) returns (obj: map<nat, Entry>)
    ensures KeyedFrom(obj, results, withCategory)
    ensures forall k :: k in obj ==> obj[k].index == k
  {
    FinalIndexes(results, withCategory);
    obj := KeyByIndex(FinalResults(results, withCategory));
  }

  /** The object returned when the fetch or the parse throws. */
  function ErrorObject(title: string, category: Option<string>): (obj: map<nat, Entry>)
    ensures obj.Keys == {1} && obj[1].index == 1 && obj[1].rank == 1 && obj[1].title == title
    ensures obj[1].img.None? && obj[1].japanese.None? && obj[1].sub == [] && obj[1].dub == []
    ensures obj[1].category == category
  {
    map[1 := Entry(1, 1, title, None, None, [], [], category)]
  }

  // ------------------------------------------------------------ the boards

  /** The chart page as fetched: the section matched by the board's own
      selector, the one matched by its fallback selector, and (weekly only)
      the `li` items of the alternative section. */
  datatype ChartPage = ChartPage(primary: Option<Section>, fallback: Option<Section>, alternative: seq<ChartItem>)

  function SectionOf(page: ChartPage): Option<Section> {
    if page.primary.Some? then page.primary else page.fallback
  }

  /** The top pass and the list pass over the chosen section. */
  function TwoPassResults(section: Option<Section>): seq<Ranked> {
    match section
    case None => []
    case Some(sec) => PassFrom(ListPass("regular"), PassFrom(TopPass, [], sec.tops, 0), sec.list, 0)
  }

  /** The weekly results: the alternative section is scanned, from
      nothing, only when the two passes found nothing. */
  function WeeklyResults(page: ChartPage): seq<Ranked> {
    var found := TwoPassResults(SectionOf(page));
    if found == [] then PassFrom(ListPass("alternative"), [], page.alternative, 0) else found
  }

  /** The two passes keep the ranking promise, and tag their entries "top"
      then "regular". */
  lemma TwoPassRanking(section: Option<Section>)
    ensures Ranking(TwoPassResults(section))
    ensures forall k :: 0 <= k < |TwoPassResults(section)| ==> TwoPassResults(section)[k].category in {"top", "regular"}
  {
    if section.Some? {
      var sec := section.value;
      PassKeepsRanking(TopPass, [], sec.tops, 0);
      PassAppends(TopPass, [], sec.tops, 0);
      PassKeepsRanking(ListPass("regular"), PassFrom(TopPass, [], sec.tops, 0), sec.list, 0);
      PassAppends(ListPass("regular"), PassFrom(TopPass, [], sec.tops, 0), sec.list, 0);
    }
  }

  /** The weekly results keep the ranking promise, and entries tagged
      "alternative" come only when the two passes found nothing. */
  lemma WeeklyRanking(page: ChartPage)
    ensures Ranking(WeeklyResults(page))
    ensures TwoPassResults(SectionOf(page)) != [] ==>
      forall k :: 0 <= k < |WeeklyResults(page)| ==> WeeklyResults(page)[k].category in {"top", "regular"}
    ensures TwoPassResults(SectionOf(page)) == [] ==>
      forall k :: 0 <= k < |WeeklyResults(page)| ==> WeeklyResults(page)[k].category == "alternative"
  {
    TwoPassRanking(SectionOf(page));
    PassKeepsRanking(ListPass("alternative"), [], page.alternative, 0);
    PassAppends(ListPass("alternative"), [], page.alternative, 0);
  }

  /** The top pass and the list pass, over one `results` and one `seen`. */
  method TwoPasses(section: Option<Section>) returns (results: seq<Ranked>, seen: set<string>)
    ensures results == TwoPassResults(section)
    ensures seen == TitlesOf(results)
  {
    results, seen := [], {};
    if section.Some? {
      results, seen := RunPass(TopPass, section.value.tops, results, seen);
      results, seen := RunPass(ListPass("regular"), section.value.list, results, seen);
    }
  }

  /** `scrapeHiAnimeTop10()`. */
  method ScrapeTop10(fetched: Result<ChartPage, string>) returns (obj: map<nat, Entry>)
    ensures fetched.Err? ==> obj == ErrorObject(TOP_ERROR, None)
    ensures fetched.Ok? ==> var results := TwoPassResults(SectionOf(fetched.value));
      KeyedFrom(obj, results, false)
  {
    if fetched.Err? {
      return ErrorObject(TOP_ERROR, None);
    }
    var results, _ := TwoPasses(SectionOf(fetched.value));
    obj := Keyed(results, false);
  }

  /** `scrapeHiAnimeMonthlyTop10()`. */
  method ScrapeMonthlyTop10(fetched: Result<ChartPage, string>) returns (obj: map<nat, Entry>)
    ensures fetched.Err? ==> obj == ErrorObject(MONTHLY_ERROR, None)
    ensures fetched.Ok? ==> var results := TwoPassResults(SectionOf(fetched.value));
      KeyedFrom(obj, results, false)
  {
    if fetched.Err? {
      return ErrorObject(MONTHLY_ERROR, None);
    }
    var results, _ := TwoPasses(SectionOf(fetched.value));
    obj := Keyed(results, false);
  }

  /** `scrapeHiAnimeWeeklyTop10()`. */
  method ScrapeWeeklyTop10(fetched: Result<ChartPage, string>) returns (obj: map<nat, Entry>)
    ensures fetched.Err? ==> obj == ErrorObject(WEEKLY_ERROR, Some("error"))
    ensures fetched.Ok? ==> var results := WeeklyResults(fetched.value);
      KeyedFrom(obj, results, true)
  {
    if fetched.Err? {
      return ErrorObject(WEEKLY_ERROR, Some("error"));
    }
    var results, seen := TwoPasses(SectionOf(fetched.value));
    if |results| == 0 {
      results, seen := RunPass(ListPass("alternative"), fetched.value.alternative, results, seen);
    }
    obj := Keyed(results, true);
  }

  /** The entries of the returned object have pairwise distinct titles. */
  lemma KeyedDistinct(results: seq<Ranked>, obj: map<nat, Entry>, withCategory: bool)
    requires Ranking(results) && KeyedFrom(obj, results, withCategory)
    ensures forall k, l :: k in obj && l in obj && k != l ==> obj[k].title != obj[l].title
  {
    forall k, l | k in obj && l in obj && k != l ensures obj[k].title != obj[l].title {
      if k < l {
        assert results[k - 1].title != results[l - 1].title;
      } else {
        assert results[l - 1].title != results[k - 1].title;
      }
    }
  }
}
