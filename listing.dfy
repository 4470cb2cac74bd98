/** Item rules shared by the 123anime list scrapers (search results,
    search suggestions, genre pages and A-Z pages): the poster image taken
    from the item's `<img>`, and the Japanese title read back from the
    poster's file name. */
module Listing {
  import opened Text

  const SITE: string := "https://123anime.la"
  const NO_POSTER: string := "no_poster.jpg"

  /** The `data-src`, `src` and `data-lazy` attributes of the item's first
      poster image; an absent attribute is "". */
  datatype ImageAttrs = ImageAttrs(dataSrc: string, src: string, dataLazy: string)

  /** The first attribute that is set. */
  function RawImage(a: ImageAttrs): string {
    FirstNonEmpty([a.dataSrc, a.src, a.dataLazy])
  }

  /** A relative path is made absolute on the site; "" and `http…` stay. */
  function Absolute(raw: string): (r: string)
    ensures raw != "" ==> StartsWith(r, "http")
    ensures EndsWith(r, raw)
  {
    if raw != "" && !StartsWith(raw, "http") then
      if StartsWith(raw, "/") then SITE + raw else SITE + "/" + raw
    else raw
  }

  /** The poster image: absolute, or "" when there is none or it is the
      site's placeholder. */
  function PosterImage(a: ImageAttrs): (r: string)
    ensures r == "" || (StartsWith(r, "http") && !Contains(r, NO_POSTER))
    ensures r != "" ==> RawImage(a) != "" && EndsWith(r, RawImage(a))
    ensures StartsWith(RawImage(a), "http") && !Contains(RawImage(a), NO_POSTER) ==> r == RawImage(a)
  {
    var abs := Absolute(RawImage(a));
    if abs == "" || Contains(abs, NO_POSTER) then "" else abs
  }

  /** `s` ends in the lower-case `suffix`, ignoring ASCII case. */
  predicate EndsWithIgnoringCase(s: string, suffix: string) {
    |suffix| <= |s| && Lower(s[|s| - |suffix|..]) == suffix
  }

  /** The length of a final `.jpg`, `.jpeg`, `.png` or `.webp` in any case,
      0 when there is none: the match of `/\.(jpg|jpeg|png|webp)$/i`. */
  function ImageExtLength(f: string): (n: nat)
    ensures n <= |f|
    ensures n > 0 ==> f[|f| - n] == '.'
  {
    if EndsWithIgnoringCase(f, ".jpg") then 4
    else if EndsWithIgnoringCase(f, ".jpeg") then 5
    else if EndsWithIgnoringCase(f, ".png") then 4
    else if EndsWithIgnoringCase(f, ".webp") then 5
    else 0
  }

  /** `f.replace(/-(dub|sub)$/i, '')`. */
  function StripVariant(f: string): (r: string)
    ensures r == f || (|f| >= 4 && r == f[..|f| - 4])
  {
    if EndsWithIgnoringCase(f, "-dub") || EndsWithIgnoringCase(f, "-sub") then f[..|f| - 4] else f
  }

  /** The file name of a `-dub` poster: `/-dub\.(jpg|jpeg|png|webp)$/i`. */
  predicate IsDubPoster(file: string) {
    var n := ImageExtLength(file);
    n > 0 && EndsWithIgnoringCase(file[..|file| - n], "-dub")
  }

  /** The poster file name without its extension and `-dub`/`-sub` ending. */
  function FileStem(file: string): (stem: string)
    ensures |stem| <= |file| && stem == file[..|stem|]
    ensures '/' !in file ==> '/' !in stem
  {
    StripVariant(file[..|file| - ImageExtLength(file)])
  }

  /** Dashes become spaces and each word starts upper-case. */
  function Spaced(stem: string): (t: string)
    ensures |t| == |stem| && '-' !in t
    ensures '/' !in stem ==> '/' !in t
  {
    CapitalizeWords(ReplaceChar(stem, '-', ' '))
  }

  /** The Japanese title derived from the poster URL: the file name without
      its extension and its `-dub`/`-sub` ending, dashes turned to spaces,
      words capitalised, and " Dub" added for a dub poster; "" without a
      poster. */
  function PosterTitle(image: string): (t: string)
    ensures image == "" ==> t == ""
    ensures image != "" && IsDubPoster(LastSegment(image, '/')) ==> EndsWith(t, " Dub")
    ensures '-' !in t
    ensures '/' !in t
  {
    if image == "" then ""
    else
      var file := LastSegment(image, '/');
      WithDubWord(Spaced(FileStem(file)), IsDubPoster(file))
  }

  /** The words, with " Dub" added for a dub poster. */
  function WithDubWord(words: string, dub: bool): (t: string)
    ensures dub ==> EndsWith(t, " Dub")
    ensures '-' !in words ==> '-' !in t
    ensures '/' !in words ==> '/' !in t
  {
    if dub then words + " Dub" else words
  }

  /** A `-dub` poster named after a slug gives back the slug, spaced and
      capitalised, with " Dub". */
  lemma DubPosterTitle(dir: string, slug: string)
    requires '/' !in slug
    ensures PosterTitle(dir + "/" + slug + "-dub.jpg") == Spaced(slug) + " Dub"
  {
    var file := slug + "-dub.jpg";
    assert dir + "/" + slug + "-dub.jpg" == dir + ['/'] + file;
    assert '/' !in "-dub.jpg";
    LastSegmentAfter(dir, '/', file);
    DubFile(slug);
  }

  lemma DubFile(slug: string)
    ensures IsDubPoster(slug + "-dub.jpg") && FileStem(slug + "-dub.jpg") == slug
  {
    JpgEnding(slug + "-dub");
    DubEnding(slug);
    CutExtension(slug + "-dub", ".jpg");
    assert slug + "-dub.jpg" == slug + "-dub" + ".jpg";
  }

  lemma CutExtension(f: string, ext: string)
    ensures (f + ext)[..|f + ext| - |ext|] == f
  {
  }

  lemma JpgEnding(f: string)
    ensures ImageExtLength(f + ".jpg") == 4
  {
    assert (f + ".jpg")[|f|..] == ".jpg";
    assert Lower(".jpg") == ".jpg";
  }

  lemma DubEnding(slug: string)
    ensures EndsWithIgnoringCase(slug + "-dub", "-dub") && StripVariant(slug + "-dub") == slug
  {
    assert (slug + "-dub")[|slug|..] == "-dub";
    assert Lower("-dub") == "-dub";
  }
}
