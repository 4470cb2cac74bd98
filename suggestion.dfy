/** `scrapeSearchSuggestions(query)`: the quick suggestion list read from the
    123anime search page.  Every matched item with a title gives one
    suggestion numbered by the item's position (so the numbers can skip). */
module Suggestion {
  import opened Wrappers
  import opened Text
  import opened Listing
  import opened Each

  /** What the scraper reads from one item of `.suggestions .item, .film-list .item`. */
  datatype RawSuggestion = RawSuggestion(
    nameText: string,     // text of the first `.name, a[data-jtitle]`
    jtitle: string,       // `a[data-jtitle]`'s attribute, "" when absent
    img: ImageAttrs,
    tvParentText: string, // text of the `.fa-tv`'s parent, "" when there is none
    epClassText: string,  // text of the `[class*="ep"]` elements
    hasSub: bool,         // a `.sub` inside
    hasDub: bool)         // a `.dub` inside

  datatype SuggestionItem = SuggestionItem(index: nat, title: string, japaneseTitle: string, image: string, episode: string, kind: string)

  function TitleOf(el: RawSuggestion): string {
    FirstNonEmpty([Trim(el.nameText), el.jtitle])
  }

  /** The suggestion for the item at position `i`, None when it has no title. */
  function SuggestionOf(i: nat, el: RawSuggestion): (r: Option<SuggestionItem>)
    ensures r.Some? <==> TitleOf(el) != ""
    ensures r.Some? ==> r.value.index == i + 1 && r.value.title == TitleOf(el)
    ensures r.Some? ==> (r.value.kind == "dub" <==> el.hasDub)
    ensures r.Some? ==> (r.value.kind == "sub" <==> !el.hasDub)
    ensures r.Some? ==> forall k :: 0 <= k < |r.value.episode| ==> IsDigit(r.value.episode[k])
    ensures r.Some? ==> r.value.image == "" || (StartsWith(r.value.image, "http") && !Contains(r.value.image, NO_POSTER))
  {
    var title := TitleOf(el);
    if title == "" then None
    else
      var image := PosterImage(el.img);
      Some(SuggestionItem(i + 1, title, if image != "" then PosterTitle(image) else "", image,
        Digits(FirstNonEmpty([Trim(el.tvParentText), Trim(el.epClassText)])),
        if el.hasDub then "dub" else "sub"))
  }

  /** The cheerio pass over the matched items; the page fetch is its input. */
  method ScrapeSearchSuggestions(els: seq<RawSuggestion>) returns (out: seq<SuggestionItem>)
    ensures out == Pushed(els, SuggestionOf)
  {
    out := EachPushSome(els, SuggestionOf);
  }

  /** The k-th suggestion is numbered after the position of the item it
      comes from. */
  lemma IndexIsPosition(els: seq<RawSuggestion>, k: nat)
    requires k < |Pushed(els, SuggestionOf)|
    ensures PushedFrom(els, SuggestionOf)[k] < |els|
    ensures Pushed(els, SuggestionOf)[k].index == PushedFrom(els, SuggestionOf)[k] + 1
  {
    var ix := PushedFrom(els, SuggestionOf);
    assert SuggestionOf(ix[k], els[ix[k]]) == Some(Pushed(els, SuggestionOf)[k]);
  }

  /** The numbers of the suggestions stay within 1 to the number of items. */
  lemma SuggestionNumbersInRange(els: seq<RawSuggestion>)
    ensures forall k :: 0 <= k < |Pushed(els, SuggestionOf)| ==> 1 <= Pushed(els, SuggestionOf)[k].index <= |els|
  {
    forall k | 0 <= k < |Pushed(els, SuggestionOf)| ensures 1 <= Pushed(els, SuggestionOf)[k].index <= |els| {
      IndexIsPosition(els, k);
    }
  }

  /** The numbers of the suggestions increase strictly. */
  lemma SuggestionNumbersIncrease(els: seq<RawSuggestion>)
    ensures var out := Pushed(els, SuggestionOf);
      forall k, l :: 0 <= k < l < |out| ==> out[k].index < out[l].index
  {
    var out := Pushed(els, SuggestionOf);
    forall k, l | 0 <= k < l < |out| ensures out[k].index < out[l].index {
      IndexIsPosition(els, k);
      IndexIsPosition(els, l);
    }
  }

  /** Every item with a title is numbered after its position. */
  lemma EveryTitledItemNumbered(els: seq<RawSuggestion>, i: nat)
    requires i < |els| && TitleOf(els[i]) != ""
    ensures exists k :: 0 <= k < |Pushed(els, SuggestionOf)| && Pushed(els, SuggestionOf)[k].index == i + 1
  {
    var ix := PushedFrom(els, SuggestionOf);
    assert SuggestionOf(i, els[i]).Some?;
    var k :| 0 <= k < |ix| && ix[k] == i;
    IndexIsPosition(els, k);
  }

  /** A page whose first item has no title starts its suggestions at 2. */
  lemma FirstUntitledSkipsOne(a: RawSuggestion, b: RawSuggestion)
    requires TitleOf(a) == "" && TitleOf(b) != ""
    ensures Pushed([a, b], SuggestionOf)[0].index == 2
  {
    assert [a, b][..1] == [a];
    assert [a][..0] == [];
  }
}
