/** The "ongoing" homepage widget of 123anime: collect the links of every
    ongoing widget, drop duplicates, cap the list, and point every entry at
    the poster image derived from its title's slug.  The page is given as
    the widgets' extracted fields; the selectors themselves are not modelled. */
module Ongoing {
  import opened Wrappers
  import opened Text
  import opened Dedup
  import opened Concurrency

  const POSTER_BASE: string := "https://123anime.la/imgs/poster/"
  const MAX_ITEMS: nat := 60
  const CONCURRENCY: int := 6

  // ---------------------------------------------------------------- slugs

  /** The characters `/[:"'()\[\]{}]/g` deletes. */
  predicate IsStripped(c: char) {
    c == ':' || c == '"' || c == '\'' || c == '(' || c == ')' || c == '[' || c == ']' || c == '{' || c == '}'
  }

  predicate NotStripped(c: char) { !IsStripped(c) }

  /** The class `[^a-z0-9]` under the `i` flag. */
  predicate NotAlnum(c: char) { !IsAsciiAlnum(c) }

  predicate IsDash(c: char) { c == '-' }

  predicate IsSlugChar(c: char) { IsAsciiLower(c) || IsDigit(c) || c == '-' }

  /** The shape every slug has: lower-case letters, digits and single dashes,
      with no dash at either end. */
  predicate IsSlug(s: string) {
    (forall i :: 0 <= i < |s| ==> IsSlugChar(s[i])) &&
    NoAdjacent(s, IsDash) &&
    (s == [] || (s[0] != '-' && s[|s| - 1] != '-'))
  }

  /** The replace chain applied to the (already diacritic-free) title. */
  function SlugBody(title: string): string {
    var stripped := Keep(Lower(title), NotStripped);
    var dashed := CollapseRuns(stripped, NotAlnum, '-');
    DropWhileEnd(DropWhile(dashed, IsDash), IsDash)
  }

  /** `slugifyTitle(title)`; `None` is `null`. */
  function SlugifyTitle(title: string): (r: Option<string>)
    ensures title == "" <==> r.None?
  {
    if title == "" then None else Some(SlugBody(title))
  }

  /** After the dash collapse only slug characters are left, and no two
      dashes are neighbours. */
  lemma {:induction false} CollapsedShape(title: string)
    ensures var d := CollapseRuns(Keep(Lower(title), NotStripped), NotAlnum, '-');
      (forall i :: 0 <= i < |d| ==> IsSlugChar(d[i])) && NoAdjacent(d, IsDash)
  {
    var lowered := Lower(title);
    var stripped := Keep(lowered, NotStripped);
    forall i | 0 <= i < |stripped| ensures !IsAsciiUpper(stripped[i]) {
      var j :| 0 <= j < |lowered| && lowered[j] == stripped[i];
    }
    var dashed := CollapseRuns(stripped, NotAlnum, '-');
    CollapseRunsChars(stripped, NotAlnum, '-');
    CollapseRunsNoAdjacent(stripped, NotAlnum, '-');
    forall i | 0 <= i < |dashed| ensures IsSlugChar(dashed[i]) {
      if dashed[i] != '-' {
        assert dashed[i] in stripped;
      }
    }
  }

  /** Cutting the leading and trailing dashes off a collapsed string leaves a slug. */
  lemma {:induction false} TrimDashesShape(dashed: string)
    requires forall i :: 0 <= i < |dashed| ==> IsSlugChar(dashed[i])
    requires NoAdjacent(dashed, IsDash)
    ensures IsSlug(DropWhileEnd(DropWhile(dashed, IsDash), IsDash))
  {
    var front := DropWhile(dashed, IsDash);
    var r := DropWhileEnd(front, IsDash);
    TrimmedShape(dashed, front, r);
  }

  /** A prefix of a suffix of a collapsed string, with no dash at its ends, is a slug. */
  lemma {:induction false} TrimmedShape(dashed: string, front: string, r: string)
    requires forall i :: 0 <= i < |dashed| ==> IsSlugChar(dashed[i])
    requires NoAdjacent(dashed, IsDash)
    requires |front| <= |dashed| && front == dashed[|dashed| - |front|..]
    requires front == [] || !IsDash(front[0])
    requires |r| <= |front| && r == front[..|r|]
    requires r == [] || !IsDash(r[|r| - 1])
    ensures IsSlug(r)
  {
    var lo := |dashed| - |front|;
    PrefixOfSuffix(dashed, front, r);
    SliceKeepsNoAdjacent(dashed, lo, lo + |r|, IsDash);
    SliceKeepsSlugChars(dashed, lo, lo + |r|);
    if r != [] {
      assert r[0] == front[0];
    }
  }

  lemma SliceKeepsSlugChars(s: string, lo: nat, hi: nat)
    requires lo <= hi <= |s|
    requires forall i :: 0 <= i < |s| ==> IsSlugChar(s[i])
    ensures forall i :: 0 <= i < hi - lo ==> IsSlugChar(s[lo..hi][i])
  {
    forall i | 0 <= i < hi - lo ensures IsSlugChar(s[lo..hi][i]) {
      assert s[lo..hi][i] == s[lo + i];
    }
  }

  /** Every slug has the slug shape. */
  lemma {:induction false} SlugShape(title: string)
    ensures IsSlug(SlugBody(title))
  {
    CollapsedShape(title);
    TrimDashesShape(CollapseRuns(Keep(Lower(title), NotStripped), NotAlnum, '-'));
  }

  /** The poster URL of an entry: built from the slug of its title when that
      slug is non-empty, otherwise the scraped image ('' is `null`). */
  function Poster(title: string, image: string): (r: string)
    ensures SlugifyTitle(title).Some? && SlugBody(title) != "" ==>
      r == POSTER_BASE + SlugBody(title) + ".jpg"
    ensures !(SlugifyTitle(title).Some? && SlugBody(title) != "") ==> r == image
  {
    match SlugifyTitle(title)
    case Some(slug) => if slug != "" then POSTER_BASE + slug + ".jpg" else image
    case None => image
  }

  /** A derived poster URL sits under the poster directory, ends in ".jpg", and
      between the two holds a non-empty slug. */
  lemma {:induction false} PosterShape(title: string, image: string)
    ensures Poster(title, image) == image ||
      (var r := Poster(title, image);
       StartsWith(r, POSTER_BASE) && EndsWith(r, ".jpg") &&
       |r| > |POSTER_BASE| + 4 && IsSlug(r[|POSTER_BASE|..|r| - 4]))
  {
    if title != "" && SlugBody(title) != "" {
      Framed(POSTER_BASE, SlugBody(title), ".jpg");
      SlugShape(title);
    }
  }

  // ------------------------------------------------------------ collection

  /** The `a` link found in a matched element: its title candidates in the
      order `data-jtitle`, `data-title`, `title`, text; its resolved href
      ('' when it has none); and the text of its `span.watch`, if any. */
  datatype Anchor = Anchor(titles: seq<string>, href: string, watchText: Option<string>)

  /** One element matched by the widget's link selectors, seen from its
      closest `.item`: the anchor, the `.status` text, and the resolved image
      ('' when none). */
  datatype Match = Match(anchor: Option<Anchor>, statusText: Option<string>, image: string)

  datatype Widget = Widget(heading: string, hasOngoingClass: bool, matches: seq<Match>)

  /** A collected entry; '' stands for `null`. */
  datatype Item = Item(title: string, href: string, episode: string, image: string)

  /** The widget test: its lower-cased heading mentions "ongoing", "has-page"
      or "hotnew", or it carries the class `ongoing`. */
  predicate IsOngoingWidget(w: Widget) {
    var h := Lower(w.heading);
    Contains(h, "ongoing") || Contains(h, "has-page") || Contains(h, "hotnew") || w.hasOngoingClass
  }

  /** Up to four digits from the watch label, else from the status label. */
  function Episode(m: Match): (e: string)
    requires m.anchor.Some?
    ensures |e| <= 4 && forall i :: 0 <= i < |e| ==> IsDigit(e[i])
  {
    match m.anchor.value.watchText
    case Some(t) => FirstDigitRun(t, 4)
    case None =>
      match m.statusText
      case Some(t) => FirstDigitRun(t, 4)
      case None => ""
  }

  function ItemOf(m: Match): Item
    requires m.anchor.Some?
  {
    Item(Trim(FirstNonEmpty(m.anchor.value.titles)), m.anchor.value.href, Episode(m), m.image)
  }

  /** The entries one widget contributes: one per match that has an anchor. */
  function ItemsOf(ms: seq<Match>): (r: seq<Item>)
    ensures |r| <= |ms|
    decreases |ms|
  {
    if ms == [] then [] else ItemsOf(ms[..|ms| - 1]) + Contribution(ms[|ms| - 1])
  }

  /** The entry a match contributes: one when it has an anchor. */
  function Contribution(m: Match): (r: seq<Item>)
    ensures |r| <= 1
  {
    if m.anchor.Some? then [ItemOf(m)] else []
  }

  function WidgetItems(w: Widget): seq<Item> {
    if IsOngoingWidget(w) then ItemsOf(w.matches) else []
  }

  /** Everything the `items.push` loops collect, widget by widget. */
  function Collected(ws: seq<Widget>): seq<Item>
    decreases |ws|
  {
    if ws == [] then [] else Collected(ws[..|ws| - 1]) + WidgetItems(ws[|ws| - 1])
  }

  /** The inner `each` over one widget's matches. */
  method CollectWidget(w: Widget) returns (items: seq<Item>)
    ensures items == WidgetItems(w)
  {
    items := [];
    if !IsOngoingWidget(w) {
      return;
    }
    var j := 0;
    while j < |w.matches|
      invariant 0 <= j <= |w.matches|
      invariant items == ItemsOf(w.matches[..j])
    {
      ItemsOfStep(w.matches, j);
      items := items + Contribution(w.matches[j]);
      j := j + 1;
    }
    assert w.matches[..j] == w.matches;
  }

  /** One more match adds its entry when it has an anchor. */
  lemma ItemsOfStep(ms: seq<Match>, j: nat)
    requires j < |ms|
    ensures ItemsOf(ms[..j + 1]) == ItemsOf(ms[..j]) + Contribution(ms[j])
  {
    assert ms[..j + 1][..j] == ms[..j];
  }

  /** The outer `each` over the page's widgets. */
  method CollectItems(ws: seq<Widget>) returns (items: seq<Item>)
    ensures items == Collected(ws)
  {
    items := [];
    var i := 0;
    while i < |ws|
      invariant 0 <= i <= |ws|
      invariant items == Collected(ws[..i])
    {
      assert ws[..i + 1][..i] == ws[..i];
      var more := CollectWidget(ws[i]);
      items := items + more;
      i := i + 1;
    }
    assert ws[..i] == ws;
  }

  // ------------------------------------------------------- dedup and output

  predicate HasHrefOrTitle(it: Item) { it.title != "" || it.href != "" }

  function ItemKey(it: Item): string { HrefTitleKey(it.href, it.title) }

  /** The filtered, de-duplicated and capped list. */
  function Deduped(items: seq<Item>): seq<Item> {
    Take(FirstByKey(items, HasHrefOrTitle, ItemKey, {}), MAX_ITEMS)
  }

  /** One entry of `data`. */
  datatype Entry = Entry(title: string, image: string, episode: string)

  function Enrich(it: Item): Entry {
    Entry(it.title, Poster(it.title, it.image), it.episode)
  }

  datatype Payload = Payload(success: bool, data: seq<Slot<Entry>>)

  /** `scrapeOngoing()` on a fetched page; a failed fetch is rethrown. */
  method ScrapeOngoing(page: Result<seq<Widget>, string>) returns (r: Result<Payload, string>)
    ensures page.Err? ==> r == Err(page.error)
    ensures page.Ok? ==> r.Ok? && r.value.success
    ensures page.Ok? ==>
      var d := Deduped(Collected(page.value));
      |r.value.data| == |d| &&
      forall i :: 0 <= i < |d| ==> r.value.data[i] == Value(Enrich(d[i]))
  {
    if page.Err? {
      return Err(page.error);
    }
    var items := CollectItems(page.value);
    var unique := DedupLoop(items, HasHrefOrTitle, ItemKey);
    var dedup := Take(unique, MAX_ITEMS);
    var enriched, _ := MapWithConcurrency(dedup, (it: Item, i: nat) => Some(Enrich(it)), CONCURRENCY);
    r := Ok(Payload(true, enriched));
  }

  /** The list handed to the mapper holds at most 60 entries, each with an
      href or a title, no two with the same key, taken from the page. */
  lemma {:induction false} DedupedShape(items: seq<Item>)
    ensures |Deduped(items)| <= MAX_ITEMS
    ensures forall i :: 0 <= i < |Deduped(items)| ==> HasHrefOrTitle(Deduped(items)[i])
    ensures forall i, j :: 0 <= i < j < |Deduped(items)| ==> ItemKey(Deduped(items)[i]) != ItemKey(Deduped(items)[j])
    ensures forall x :: x in Deduped(items) ==> x in items
  {
    FirstByKeyDistinct(items, HasHrefOrTitle, ItemKey, {});
    FirstByKeyFromInput(items, HasHrefOrTitle, ItemKey, {});
  }
}
