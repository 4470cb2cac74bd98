/** The two "Dub" regular expressions of the recently-updated (dub) scraper:
    `/\bDub\b/i`, whose first match is cut from a title before it is
    searched on Kitsu, and `/\s*\(?Dub\)?/gi`, whose every match is cut
    from an English title before it is looked up in the romaji table.
    Case-insensitivity is ASCII only, as it is for these ASCII patterns. */
module DubText {
  import opened Wrappers
  import opened Text

  /** The letters d, u, b in any case start at `i`. */
  predicate IsDubAt(s: string, i: nat) {
    i + 3 <= |s| && LowerChar(s[i]) == 'd' && LowerChar(s[i + 1]) == 'u' && LowerChar(s[i + 2]) == 'b'
  }

  /** No "dub" in any case occurs in `s`. */
  predicate NoDub(s: string) {
    forall i :: 0 <= i < |s| ==> !IsDubAt(s, i)
  }

  // --------------------------------------------------------- /\bDub\b/i

  /** `\bDub\b` matches at `i`: the letters, with no word character on
      either side. */
  predicate IsDubWordAt(s: string, i: nat) {
    IsDubAt(s, i) &&
    (i == 0 || !IsWordChar(s[i - 1])) &&
    (i + 3 == |s| || !IsWordChar(s[i + 3]))
  }

  /** The leftmost match at or after `from`. */
  function FirstDubWord(s: string, from: nat): (r: Option<nat>)
    ensures r.Some? ==> from <= r.value && IsDubWordAt(s, r.value)
    ensures r.Some? ==> forall j: nat :: from <= j < r.value ==> !IsDubWordAt(s, j)
    ensures r.None? ==> forall j: nat :: from <= j ==> !IsDubWordAt(s, j)
    decreases |s| - from
  {
    if from + 3 > |s| then None
    else if IsDubWordAt(s, from) then Some(from)
    else FirstDubWord(s, from + 1)
  }

  /** `title.replace(/\bDub\b/i, '')`: the first whole-word "dub" is cut. */
  function RemoveDubWord(s: string): (r: string)
    ensures (forall j: nat :: !IsDubWordAt(s, j)) ==> r == s
    ensures (exists j: nat :: IsDubWordAt(s, j)) ==>
      |r| == |s| - 3 &&
      exists k: nat :: IsDubWordAt(s, k) && r == s[..k] + s[k + 3..] &&
        forall j: nat :: j < k ==> !IsDubWordAt(s, j)
  {
    match FirstDubWord(s, 0)
    case None => s
    case Some(k) => s[..k] + s[k + 3..]
  }

  // ------------------------------------------------------ /\s*\(?Dub\)?/gi

  /** How many whitespace characters start at `i`. */
  function SpaceRun(s: string, i: nat): (n: nat)
    requires i <= |s|
    ensures i + n <= |s|
    ensures forall j :: i <= j < i + n ==> IsSpace(s[j])
    ensures i + n == |s| || !IsSpace(s[i + n])
    decreases |s| - i
  {
    if i < |s| && IsSpace(s[i]) then 1 + SpaceRun(s, i + 1) else 0
  }

  /** The length of the match of `\s*\(?Dub\)?` at `i`, 0 when there is
      none.  Backtracking never helps: giving back a space or the bracket
      leaves a character in front that cannot start "dub". */
  function DubMarkLength(s: string, i: nat): (n: nat)
    requires i <= |s|
    ensures i + n <= |s|
    ensures n > 0 ==> n >= 3 && (IsDubAt(s, i + n - 3) || (n >= 4 && IsDubAt(s, i + n - 4)))
  {
    var q := i + SpaceRun(s, i);
    if q < |s| && s[q] == '(' && IsDubAt(s, q + 1) then
      q + 4 - i + (if q + 4 < |s| && s[q + 4] == ')' then 1 else 0)
    else if IsDubAt(s, q) then
      q + 3 - i + (if q + 3 < |s| && s[q + 3] == ')' then 1 else 0)
    else 0
  }

  /** The global replace, scanning from `i`: every match is cut, and the
      scan resumes right after it. */
  function StripFrom(s: string, i: nat): string
    requires i <= |s|
    decreases |s| - i
  {
    if i == |s| then []
    else
      var n := DubMarkLength(s, i);
      if n > 0 then StripFrom(s, i + n) else [s[i]] + StripFrom(s, i + 1)
  }

  /** `s.replace(/\s*\(?Dub\)?/gi, '')`. */
  function StripDubMarks(s: string): (r: string)
    ensures NoDub(s) ==> r == s
  {
    NoMarkKeepsRest(s, 0);
    StripFrom(s, 0)
  }

  /** With no "dub" in the text, no match is found anywhere. */
  lemma {:induction false} NoMarkKeepsRest(s: string, i: nat)
    requires i <= |s|
    ensures NoDub(s) ==> StripFrom(s, i) == s[i..]
    decreases |s| - i
  {
    if NoDub(s) && i < |s| {
      var n := DubMarkLength(s, i);
      if n > 0 {
        assert false;
      }
      NoMarkKeepsRest(s, i + 1);
      assert s[i..] == [s[i]] + s[i + 1..];
    }
  }

  /** Inside a title that holds no "dub" and does not end in whitespace, no
      match starts, even with " (Dub)" appended. */
  lemma {:induction false} NoMarkBeforeSuffix(e: string, i: nat)
    requires NoDub(e) && (e == [] || !IsSpace(e[|e| - 1]))
    requires i < |e|
    ensures DubMarkLength(e + " (Dub)", i) == 0
  {
    var s := e + " (Dub)";
    var q := i + SpaceRun(s, i);
    assert s[|e| - 1] == e[|e| - 1];
    assert q < |e|;
    forall k: nat | k < |e| ensures !IsDubAt(s, k) {
      if k + 3 <= |e| {
        assert s[k] == e[k] && s[k + 1] == e[k + 1] && s[k + 2] == e[k + 2];
        assert !IsDubAt(e, k);
      } else {
        assert LowerChar(s[|e|]) == ' ';
      }
    }
  }

  /** The scan over a title with " (Dub)" appended gives the title back. */
  lemma StripFromSuffixed(e: string, i: nat)
    requires NoDub(e) && (e == [] || !IsSpace(e[|e| - 1]))
    requires i <= |e|
    ensures StripFrom(e + " (Dub)", i) == e[i..]
  {
    forall j | i <= j < |e| ensures DubMarkLength(e + " (Dub)", j) == 0 {
      NoMarkBeforeSuffix(e, j);
    }
    SuffixIsOneMark(e);
    StripUnmarkedPrefix(e + " (Dub)", |e|, i);
  }

  /** Where no match starts before `n` and the scan from `n` gives nothing,
      the scan from `i` gives the characters from `i` to `n`. */
  lemma {:induction false} StripUnmarkedPrefix(s: string, n: nat, i: nat)
    requires i <= n <= |s|
    requires forall j :: i <= j < n ==> DubMarkLength(s, j) == 0
    requires StripFrom(s, n) == []
    ensures StripFrom(s, i) == s[i..n]
    decreases n - i
  {
    if i < n {
      StripUnmarkedPrefix(s, n, i + 1);
      assert s[i..n] == [s[i]] + s[i + 1..n];
    }
  }

  /** The appended " (Dub)" is one match, and the scan ends after it. */
  lemma SuffixIsOneMark(e: string)
    ensures DubMarkLength(e + " (Dub)", |e|) == 6
    ensures StripFrom(e + " (Dub)", |e|) == []
  {
    SuffixLayout(e);
    ClosingMark(e + " (Dub)", |e|);
  }

  /** A space, "(", the letters and ")" that end the text are one match. */
  lemma ClosingMark(s: string, p: nat)
    requires p + 6 == |s| && IsSpace(s[p]) && s[p + 1] == '(' && !IsSpace(s[p + 1])
    requires IsDubAt(s, p + 2) && s[p + 5] == ')'
    ensures DubMarkLength(s, p) == 6
    ensures StripFrom(s, p) == []
  {
    assert SpaceRun(s, p + 1) == 0;
    assert SpaceRun(s, p) == 1;
  }

  lemma SuffixLayout(e: string)
    ensures var s := e + " (Dub)";
      |s| == |e| + 6 && IsSpace(s[|e|]) && s[|e| + 1] == '(' && !IsSpace(s[|e| + 1]) &&
      IsDubAt(s, |e| + 2) && s[|e| + 5] == ')'
  {
    var s := e + " (Dub)";
    assert s[|e|..] == " (Dub)";
  }

  /** Appending " (Dub)" and stripping the dub marks again is the identity
      on a title that has no "dub" of its own and no trailing whitespace. */
  lemma {:induction false} DubSuffixRoundTrip(e: string)
    requires NoDub(e) && (e == [] || !IsSpace(e[|e| - 1]))
    ensures StripDubMarks(e + " (Dub)") == e
  {
    StripFromSuffixed(e, 0);
  }
}
