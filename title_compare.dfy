/** `normalizeForCompare`, the title normalisation the scrapers use to decide
    whether two titles name the same show: lower-case, drop the noise words
    ("dub", "sub", "season", …) that stand as whole words, and keep only
    letters and digits. */
module TitleCompare {
  import opened Text

  /** The whole words the compare normalisation deletes. */
  predicate IsNoiseWord(w: string) {
    w == "dub" || w == "sub" || w == "season" || w == "part" || w == "2nd" || w == "3rd" || w == "4th"
  }

  /** The length of the run of word characters that starts `s`. */
  function WordLength(s: string): (n: nat)
    ensures n <= |s|
    decreases |s|
  {
    if s != [] && IsWordChar(s[0]) then 1 + WordLength(s[1..]) else 0
  }

  /** The first replace of `normalizeForCompare`: every maximal run of word
      characters that is a noise word disappears.  (The punctuation it also
      deletes is removed by the second replace anyway.) */
  function DropNoiseWords(s: string, noise: string -> bool): string
    decreases |s|
  {
    if s == [] then []
    else if IsWordChar(s[0]) then
      var n := WordLength(s);
      Kept(s[..n], noise) + DropNoiseWords(s[n..], noise)
    else [s[0]] + DropNoiseWords(s[1..], noise)
  }

  /** A word as the first replace leaves it: gone when it is noise. */
  function Kept(w: string, noise: string -> bool): string {
    if noise(w) then [] else w
  }

  predicate IsLowerOrDigit(c: char) { IsAsciiLower(c) || IsDigit(c) }

  /** `normalizeForCompare(s)`; the falsy input is ''. */
  function NormalizeForCompare(s: string): (r: string)
    ensures forall i :: 0 <= i < |r| ==> IsLowerOrDigit(r[i])
    ensures s == "" ==> r == ""
  {
    Keep(DropNoiseWords(Lower(s), IsNoiseWord), IsLowerOrDigit)
  }

  /** Word runs stop at a non-word character. */
  lemma {:induction false} WordLengthStopsAt(x: string, c: char, y: string)
    requires !IsWordChar(c)
    ensures WordLength(x + [c] + y) == WordLength(x)
    decreases |x|
  {
    if x != [] {
      assert (x + [c] + y)[1..] == x[1..] + [c] + y;
      WordLengthStopsAt(x[1..], c, y);
    }
  }

  /** The noise-word deletion works separately on the two sides of a
      non-word character. */
  lemma {:induction false} DropNoiseWordsSplit(x: string, c: char, y: string, noise: string -> bool)
    requires !IsWordChar(c)
    ensures DropNoiseWords(x + [c] + y, noise) == DropNoiseWords(x, noise) + [c] + DropNoiseWords(y, noise)
    decreases |x|, 1
  {
    var s := x + [c] + y;
    if x == [] {
      assert s == [c] + y && s[1..] == y;
    } else if IsWordChar(x[0]) {
      SplitAfterWord(x, c, y, noise);
    } else {
      assert s[0] == x[0];
      assert s[1..] == x[1..] + [c] + y;
      DropNoiseWordsSplit(x[1..], c, y, noise);
    }
  }

  lemma {:induction false} SplitAfterWord(x: string, c: char, y: string, noise: string -> bool)
    requires !IsWordChar(c) && x != [] && IsWordChar(x[0])
    ensures DropNoiseWords(x + [c] + y, noise) == DropNoiseWords(x, noise) + [c] + DropNoiseWords(y, noise)
    decreases |x|, 0
  {
    var s := x + [c] + y;
    WordLengthStopsAt(x, c, y);
    var n := WordLength(x);
    SlicesAround(x, c, y, n);
    UnfoldWord(s, noise);
    UnfoldWord(x, noise);
    var piece := Kept(x[..n], noise);
    var dx := DropNoiseWords(x[n..], noise);
    var dy := DropNoiseWords(y, noise);
    DropNoiseWordsSplit(x[n..], c, y, noise);
    assert piece + (dx + [c] + dy) == (piece + dx) + [c] + dy;
  }

  /** Slicing before and after a point of `x` in `x + [c] + y`. */
  lemma SlicesAround(x: string, c: char, y: string, n: nat)
    requires 0 < n <= |x|
    ensures (x + [c] + y)[0] == x[0]
    ensures (x + [c] + y)[..n] == x[..n]
    ensures (x + [c] + y)[n..] == x[n..] + [c] + y
  {
  }

  /** The noise-word pass over a text that starts with a word. */
  lemma UnfoldWord(s: string, noise: string -> bool)
    requires s != [] && IsWordChar(s[0])
    ensures DropNoiseWords(s, noise) == Kept(s[..WordLength(s)], noise) + DropNoiseWords(s[WordLength(s)..], noise)
  {
  }

  /** Lower-casing distributes over the pieces of a spaced title. */
  lemma {:induction false} LowerSpaced(a: string, w: string, b: string)
    ensures Lower(a + " " + w + " " + b) == Lower(a) + " " + Lower(w) + " " + Lower(b)
    ensures Lower(a + " " + b) == Lower(a) + " " + Lower(b)
  {
    assert Lower(" ") == " ";
    LowerAppend(a, " ");
    LowerAppend(a + " ", w);
    LowerAppend(a + " " + w, " ");
    LowerAppend(a + " " + w + " ", b);
    LowerAppend(a + " ", b);
  }

  /** A noise word on its own is deleted entirely. */
  lemma {:induction false} NoiseWordVanishes(w: string, rest: string, noise: string -> bool)
    requires noise(w) && w != [] && WordLength(w) == |w|
    ensures DropNoiseWords(w + [' '] + rest, noise) == [' '] + DropNoiseWords(rest, noise)
  {
    DropNoiseWordsSplit(w, ' ', rest, noise);
    assert w[..|w|] == w && w[|w|..] == [];
  }

  /** Deleting the spaces again after the noise-word pass. */
  lemma {:induction false} KeepSpaced(dl: string, dr: string)
    ensures Keep(dl + [' '] + ([' '] + dr), IsLowerOrDigit) == Keep(dl + [' '] + dr, IsLowerOrDigit)
  {
    KeepAppend(dl + [' '], [' '] + dr, IsLowerOrDigit);
    KeepAppend([' '], dr, IsLowerOrDigit);
    KeepAppend(dl + [' '], dr, IsLowerOrDigit);
    assert Keep([' '], IsLowerOrDigit) == [];
  }

  /** A run made only of word characters is one word. */
  lemma {:induction false} WholeWord(w: string)
    requires forall i :: 0 <= i < |w| ==> IsWordChar(w[i])
    ensures WordLength(w) == |w|
    decreases |w|
  {
    if w != [] {
      WholeWord(w[1..]);
    }
  }

  /** Each noise word is made of lower-case letters and digits. */
  lemma NoiseWordShape(w: string)
    requires IsNoiseWord(w)
    ensures w != [] && forall i :: 0 <= i < |w| ==> IsLowerOrDigit(w[i])
  {
  }

  /** A run of lower-case letters and digits is one word, and lower-casing keeps it. */
  lemma LowerWord(w: string)
    requires forall i :: 0 <= i < |w| ==> IsLowerOrDigit(w[i])
    ensures WordLength(w) == |w| && Lower(w) == w
  {
    WholeWord(w);
  }

  /** The noise-word pass on a spaced title, with and without the noise word. */
  lemma {:induction false} DropSpaced(l: string, w: string, r: string, noise: string -> bool)
    requires noise(w) && w != [] && WordLength(w) == |w|
    ensures DropNoiseWords(l + " " + w + " " + r, noise) == DropNoiseWords(l, noise) + [' '] + ([' '] + DropNoiseWords(r, noise))
    ensures DropNoiseWords(l + " " + r, noise) == DropNoiseWords(l, noise) + [' '] + DropNoiseWords(r, noise)
  {
    assert l + " " + w + " " + r == l + [' '] + (w + [' '] + r);
    assert l + " " + r == l + [' '] + r;
    DropNoiseWordsSplit(l, ' ', w + [' '] + r, noise);
    NoiseWordVanishes(w, r, noise);
    DropNoiseWordsSplit(l, ' ', r, noise);
  }

  /** A noise word standing as its own word does not change the normalised
      title: "Naruto Season 2" compares equal to "Naruto 2". */
  lemma {:induction false} NoiseWordIgnored(a: string, w: string, b: string)
    requires IsNoiseWord(w)
    ensures NormalizeForCompare(a + " " + w + " " + b) == NormalizeForCompare(a + " " + b)
  {
    NoiseWordShape(w);
    LowerWord(w);
    LowerSpaced(a, w, b);
    DropSpaced(Lower(a), w, Lower(b), IsNoiseWord);
    KeepSpaced(DropNoiseWords(Lower(a), IsNoiseWord), DropNoiseWords(Lower(b), IsNoiseWord));
  }
}
