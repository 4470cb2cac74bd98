/** `romanizeJapanese`: a table-driven kana-to-romaji converter.  The
    hiragana table and the hiragana digraph table are constants; the
    katakana tables are built from them by shifting every code point of the
    hiragana block (U+3041..U+3096) by 0x60, and a left-to-right loop
    rewrites the trimmed input.  The conversion is stated for any pair of
    tables whose keys lie where the constant ones do (`Tables.Valid`). */
module Romanize {
  import opened Wrappers
  import opened Text

  // The hiragana table, one row of the kana chart at a time.
  const VOWELS: map<char, string> := map['あ' := "a", 'い' := "i", 'う' := "u", 'え' := "e", 'お' := "o"]
  const ROW_K: map<char, string> := map['か' := "ka", 'き' := "ki", 'く' := "ku", 'け' := "ke", 'こ' := "ko"]
  const ROW_S: map<char, string> := map['さ' := "sa", 'し' := "shi", 'す' := "su", 'せ' := "se", 'そ' := "so"]
  const ROW_T: map<char, string> := map['た' := "ta", 'ち' := "chi", 'つ' := "tsu", 'て' := "te", 'と' := "to"]
  const ROW_N: map<char, string> := map['な' := "na", 'に' := "ni", 'ぬ' := "nu", 'ね' := "ne", 'の' := "no"]
  const ROW_H: map<char, string> := map['は' := "ha", 'ひ' := "hi", 'ふ' := "fu", 'へ' := "he", 'ほ' := "ho"]
  const ROW_M: map<char, string> := map['ま' := "ma", 'み' := "mi", 'む' := "mu", 'め' := "me", 'も' := "mo"]
  const ROWS_YRW: map<char, string> := map[
    'や' := "ya", 'ゆ' := "yu", 'よ' := "yo",
    'ら' := "ra", 'り' := "ri", 'る' := "ru", 'れ' := "re", 'ろ' := "ro",
    'わ' := "wa", 'ん' := "n"]
  const ROWS_GZ: map<char, string> := map[
    'が' := "ga", 'ぎ' := "gi", 'ぐ' := "gu", 'げ' := "ge", 'ご' := "go",
    'ざ' := "za", 'じ' := "ji", 'ず' := "zu", 'ぜ' := "ze", 'ぞ' := "zo"]
  const ROWS_DB: map<char, string> := map[
    'だ' := "da", 'ぢ' := "ji", 'づ' := "zu", 'で' := "de", 'ど' := "do",
    'ば' := "ba", 'び' := "bi", 'ぶ' := "bu", 'べ' := "be", 'ぼ' := "bo"]
  const ROW_P: map<char, string> := map['ぱ' := "pa", 'ぴ' := "pi", 'ぷ' := "pu", 'ぺ' := "pe", 'ぽ' := "po"]
  const SMALL_KANA: map<char, string> := map[
    'ぁ' := "a", 'ぃ' := "i", 'ぅ' := "u", 'ぇ' := "e", 'ぉ' := "o",
    'っ' := "", 'ゃ' := "ya", 'ゅ' := "yu", 'ょ' := "yo", 'ー' := "-"]

  const HIRAGANA: map<char, string> :=
    VOWELS + ROW_K + ROW_S + ROW_T + ROW_N + ROW_H + ROW_M + ROWS_YRW + ROWS_GZ + ROWS_DB + ROW_P + SMALL_KANA

  // The digraph table, in groups of six.
  const DIGRAPHS_KS: map<string, string> := map[
    "きゃ" := "kya", "きゅ" := "kyu", "きょ" := "kyo", "しゃ" := "sha", "しゅ" := "shu", "しょ" := "sho"]
  const DIGRAPHS_CN: map<string, string> := map[
    "ちゃ" := "cha", "ちゅ" := "chu", "ちょ" := "cho", "にゃ" := "nya", "にゅ" := "nyu", "にょ" := "nyo"]
  const DIGRAPHS_HM: map<string, string> := map[
    "ひゃ" := "hya", "ひゅ" := "hyu", "ひょ" := "hyo", "みゃ" := "mya", "みゅ" := "myu", "みょ" := "myo"]
  const DIGRAPHS_RG: map<string, string> := map[
    "りゃ" := "rya", "りゅ" := "ryu", "りょ" := "ryo", "ぎゃ" := "gya", "ぎゅ" := "gyu", "ぎょ" := "gyo"]
  const DIGRAPHS_JB: map<string, string> := map[
    "じゃ" := "ja", "じゅ" := "ju", "じょ" := "jo", "びゃ" := "bya", "びゅ" := "byu", "びょ" := "byo"]
  const DIGRAPHS_P: map<string, string> := map["ぴゃ" := "pya", "ぴゅ" := "pyu", "ぴょ" := "pyo"]

  const HIRAGANA_DIGRAPHS: map<string, string> :=
    DIGRAPHS_KS + DIGRAPHS_CN + DIGRAPHS_HM + DIGRAPHS_RG + DIGRAPHS_JB + DIGRAPHS_P

  predicate InHiraganaBlock(c: char) { 0x3041 <= c as int <= 0x3096 }
  predicate InKatakanaBlock(c: char) { 0x30A1 <= c as int <= 0x30F6 }

  function ToKatakana(c: char): (k: char)
    requires InHiraganaBlock(c)
    ensures InKatakanaBlock(k)
  {
    (c as int + 0x60) as char
  }

  function ToHiragana(k: char): (c: char)
    requires InKatakanaBlock(k)
    ensures InHiraganaBlock(c) && ToKatakana(c) == k
  {
    (k as int - 0x60) as char
  }

  /** The per-character rewrite used for digraph keys: shift the hiragana
      block, leave everything else alone. */
  function KanaShift(c: char): char {
    if InHiraganaBlock(c) then ToKatakana(c) else c
  }

  function KanaShiftString(s: string): (r: string)
    ensures |r| == |s| && forall i :: 0 <= i < |s| ==> r[i] == KanaShift(s[i])
  {
    seq(|s|, i requires 0 <= i < |s| => KanaShift(s[i]))
  }

  /** The single-kana table and the digraph table the converter starts from. */
  datatype Tables = Tables(hiragana: map<char, string>, digraphs: map<string, string>) {
    /** Single keys are hiragana-block characters or the prolonged sound mark
        (which lies outside both blocks); digraph keys are two hiragana-block
        characters, the first of them never a small tsu. */
    predicate Valid() {
      SingleKeysInPlace(hiragana) && DigraphKeysInPlace(digraphs)
    }
  }

  const TABLES: Tables := Tables(HIRAGANA, HIRAGANA_DIGRAPHS)

  predicate SingleKeysInPlace(m: map<char, string>) {
    forall c :: c in m ==> InHiraganaBlock(c) || c == 'ー'
  }

  predicate DigraphKeysInPlace(m: map<string, string>) {
    forall t :: t in m ==> |t| == 2 && InHiraganaBlock(t[0]) && InHiraganaBlock(t[1]) && t[0] != 'っ'
  }

  lemma UnionKeysInPlace(a: map<char, string>, b: map<char, string>)
    requires SingleKeysInPlace(a) && SingleKeysInPlace(b)
    ensures SingleKeysInPlace(a + b)
  {
  }

  lemma UnionDigraphKeysInPlace(a: map<string, string>, b: map<string, string>)
    requires DigraphKeysInPlace(a) && DigraphKeysInPlace(b)
    ensures DigraphKeysInPlace(a + b)
  {
  }

  lemma VowelsAndK() ensures SingleKeysInPlace(VOWELS) && SingleKeysInPlace(ROW_K) {}
  lemma RowsSAndT() ensures SingleKeysInPlace(ROW_S) && SingleKeysInPlace(ROW_T) {}
  lemma RowsNAndH() ensures SingleKeysInPlace(ROW_N) && SingleKeysInPlace(ROW_H) {}
  lemma RowsMAndYrw() ensures SingleKeysInPlace(ROW_M) && SingleKeysInPlace(ROWS_YRW) {}
  lemma RowsGzAndDb() ensures SingleKeysInPlace(ROWS_GZ) && SingleKeysInPlace(ROWS_DB) {}
  lemma RowPAndSmall() ensures SingleKeysInPlace(ROW_P) && SingleKeysInPlace(SMALL_KANA) {}
  lemma DigraphsKs() ensures DigraphKeysInPlace(DIGRAPHS_KS) {}
  lemma DigraphsCn() ensures DigraphKeysInPlace(DIGRAPHS_CN) {}
  lemma DigraphsHm() ensures DigraphKeysInPlace(DIGRAPHS_HM) {}
  lemma DigraphsRg() ensures DigraphKeysInPlace(DIGRAPHS_RG) {}
  lemma DigraphsJb() ensures DigraphKeysInPlace(DIGRAPHS_JB) {}
  lemma DigraphsP() ensures DigraphKeysInPlace(DIGRAPHS_P) {}

  lemma HiraganaInPlace()
    ensures SingleKeysInPlace(HIRAGANA)
  {
    VowelsAndK(); RowsSAndT(); RowsNAndH(); RowsMAndYrw(); RowsGzAndDb(); RowPAndSmall();
    var m := VOWELS;
    UnionKeysInPlace(m, ROW_K); m := m + ROW_K;
    UnionKeysInPlace(m, ROW_S); m := m + ROW_S;
    UnionKeysInPlace(m, ROW_T); m := m + ROW_T;
    UnionKeysInPlace(m, ROW_N); m := m + ROW_N;
    UnionKeysInPlace(m, ROW_H); m := m + ROW_H;
    UnionKeysInPlace(m, ROW_M); m := m + ROW_M;
    UnionKeysInPlace(m, ROWS_YRW); m := m + ROWS_YRW;
    UnionKeysInPlace(m, ROWS_GZ); m := m + ROWS_GZ;
    UnionKeysInPlace(m, ROWS_DB); m := m + ROWS_DB;
    UnionKeysInPlace(m, ROW_P); m := m + ROW_P;
    UnionKeysInPlace(m, SMALL_KANA); m := m + SMALL_KANA;
  }

  lemma DigraphsInPlace()
    ensures DigraphKeysInPlace(HIRAGANA_DIGRAPHS)
  {
    DigraphsKs(); DigraphsCn(); DigraphsHm(); DigraphsRg(); DigraphsJb(); DigraphsP();
    var m := DIGRAPHS_KS;
    UnionDigraphKeysInPlace(m, DIGRAPHS_CN); m := m + DIGRAPHS_CN;
    UnionDigraphKeysInPlace(m, DIGRAPHS_HM); m := m + DIGRAPHS_HM;
    UnionDigraphKeysInPlace(m, DIGRAPHS_RG); m := m + DIGRAPHS_RG;
    UnionDigraphKeysInPlace(m, DIGRAPHS_JB); m := m + DIGRAPHS_JB;
    UnionDigraphKeysInPlace(m, DIGRAPHS_P); m := m + DIGRAPHS_P;
  }

  /** The constant tables have their keys where the converter expects them. */
  lemma ConstantTablesValid()
    ensures TABLES.Valid()
  {
    HiraganaInPlace();
    DigraphsInPlace();
  }

  /** `katakanaMap[k]`: the hiragana value of `k - 0x60`, for katakana-block `k`. */
  function KatakanaLookup(t: Tables, k: char): Option<string> {
    if InKatakanaBlock(k) && ToHiragana(k) in t.hiragana then Some(t.hiragana[ToHiragana(k)]) else None
  }

  /** `digraphs[two]` after the katakana copies were added. */
  function DigraphLookup(t: Tables, two: string): Option<string> {
    if two in t.digraphs then Some(t.digraphs[two])
    else if |two| == 2 && InKatakanaBlock(two[0]) && InKatakanaBlock(two[1])
            && [ToHiragana(two[0]), ToHiragana(two[1])] in t.digraphs
    then Some(t.digraphs[[ToHiragana(two[0]), ToHiragana(two[1])]])
    else None
  }

  /** A table read in a truthiness test: a missing key reads as ''. */
  function ValueOr(o: Option<string>): string {
    if o.Some? then o.value else ""
  }

  function HiraganaValue(t: Tables, c: char): string {
    if c in t.hiragana then t.hiragana[c] else ""
  }

  /** What a small tsu contributes before the kana `next`: the first letter
      of `hiraganaMap[next] || katakanaMap[next] || ''`, kept only when it is
      a letter or '-'. */
  function SokuonLetter(t: Tables, next: char): (r: string)
    ensures |r| <= 1
  {
    var v := if HiraganaValue(t, next) != "" then HiraganaValue(t, next) else ValueOr(KatakanaLookup(t, next));
    if v != "" && (IsAsciiLower(v[0]) || IsAsciiUpper(v[0]) || v[0] == '-') then [v[0]] else ""
  }

  predicate IsSmallTsu(c: char) { c == 'っ' || c == 'ッ' }

  /** How many characters one turn of the loop consumes at the start of `s`. */
  function StepWidth(t: Tables, s: string): (w: nat)
    requires s != []
    ensures 1 <= w <= |s|
  {
    if |s| >= 2 && ValueOr(DigraphLookup(t, s[..2])) != "" then 2 else 1
  }

  /** What one turn of the loop appends for the start of `s`: a digraph, the
      small-tsu letter, the hiragana value, the katakana value, or the
      character itself. */
  function StepOutput(t: Tables, s: string): string
    requires s != []
  {
    if |s| >= 2 && ValueOr(DigraphLookup(t, s[..2])) != "" then ValueOr(DigraphLookup(t, s[..2]))
    else if IsSmallTsu(s[0]) then (if |s| >= 2 then SokuonLetter(t, s[1]) else "")
    else if HiraganaValue(t, s[0]) != "" then HiraganaValue(t, s[0])
    else if ValueOr(KatakanaLookup(t, s[0])) != "" then ValueOr(KatakanaLookup(t, s[0]))
    else [s[0]]
  }

  /** The conversion loop, read as a function of the remaining input. */
  function Convert(t: Tables, s: string): string
    decreases |s|
  {
    if s == [] then "" else StepOutput(t, s) + Convert(t, s[StepWidth(t, s)..])
  }

  predicate IsDash(c: char) { c == '-' }

  /** `out.replace(/ー/g, '-').replace(/\s+/g, ' ').replace(/-+/g, '-').trim()`. */
  function Tidy(out: string): string {
    Trim(CollapseRuns(CollapseRuns(ReplaceChar(out, 'ー', '-'), IsSpace, ' '), IsDash, '-'))
  }

  /** The tidied output has no doubled whitespace and no "--". */
  lemma TidyShape(out: string)
    ensures NoAdjacent(Tidy(out), IsSpace) && NoAdjacent(Tidy(out), IsDash)
  {
    var a := ReplaceChar(out, 'ー', '-');
    var b := CollapseRuns(a, IsSpace, ' ');
    var c := CollapseRuns(b, IsDash, '-');
    CollapsedTwice(a);
    TrimKeepsNoAdjacent(c, IsSpace);
    TrimKeepsNoAdjacent(c, IsDash);
  }

  /** After both collapses neither whitespace nor dashes are doubled. */
  lemma CollapsedTwice(a: string)
    ensures var c := CollapseRuns(CollapseRuns(a, IsSpace, ' '), IsDash, '-');
      NoAdjacent(c, IsSpace) && NoAdjacent(c, IsDash)
  {
    var b := CollapseRuns(a, IsSpace, ' ');
    CollapseRunsNoAdjacent(a, IsSpace, ' ');
    CollapseRunsNoAdjacent(b, IsDash, '-');
    CollapseRunsKeepsNoAdjacent(b, IsDash, '-', IsSpace);
  }

  /** Trimming keeps a string free of neighbouring `Q` characters. */
  lemma TrimKeepsNoAdjacent(c: string, Q: char -> bool)
    requires NoAdjacent(c, Q)
    ensures NoAdjacent(Trim(c), Q)
  {
    SliceKeepsNoAdjacent(c, TrimOffset(c), TrimOffset(c) + |Trim(c)|, Q);
  }

  /** The tidied output starts and ends with no whitespace. */
  lemma TidyTrimmed(out: string)
    ensures Tidy(out) == [] || (!IsSpace(Tidy(out)[0]) && !IsSpace(Tidy(out)[|Tidy(out)| - 1]))
  {
    TrimEnds(CollapseRuns(CollapseRuns(ReplaceChar(out, 'ー', '-'), IsSpace, ' '), IsDash, '-'));
  }

  lemma TrimEnds(c: string)
    ensures Trim(c) == [] || (!IsSpace(Trim(c)[0]) && !IsSpace(Trim(c)[|Trim(c)| - 1]))
  {
  }

  /** `/[A-Za-z0-9]/.test(input)`. */
  predicate HasAsciiAlnum(s: string) {
    exists i :: 0 <= i < |s| && IsAsciiAlnum(s[i])
  }

  /** `romanizeJapanese(input)` over the tables `t`; `None` as input stands
      for a non-string argument, `None` as result for `null`. */
  function RomanizedWith(t: Tables, input: Option<string>): Option<string> {
    if input.None? || input.value == "" then None
    else if HasAsciiAlnum(input.value) then Some(Trim(input.value))
    else
      var out := Tidy(Convert(t, Trim(input.value)));
      if out == "" then None else Some(out)
  }

  /** `romanizeJapanese(input)` with the tables of the source. */
  function Romanized(input: Option<string>): Option<string> {
    RomanizedWith(TABLES, input)
  }

  /** The `forEach` that fills `katakanaMap`. */
  method BuildKatakanaMap(t: Tables) returns (kata: map<char, string>)
    requires t.Valid()
    ensures forall k :: k in kata <==> KatakanaLookup(t, k).Some?
    ensures forall k :: k in kata ==> kata[k] == KatakanaLookup(t, k).value
  {
    kata := map[];
    var pending := t.hiragana.Keys;
    while pending != {}
      invariant pending <= t.hiragana.Keys
      invariant forall h :: h in t.hiragana && h !in pending && InHiraganaBlock(h) ==> ToKatakana(h) in kata
      invariant forall k :: k in kata ==> KatakanaLookup(t, k).Some? && kata[k] == KatakanaLookup(t, k).value
      decreases |pending|
    {
      var h :| h in pending;
      if 0x3041 <= h as int <= 0x3096 {
        assert ToHiragana(ToKatakana(h)) == h;
        kata := kata[ToKatakana(h) := t.hiragana[h]];
      }
      pending := pending - {h};
    }
    forall k | KatakanaLookup(t, k).Some? ensures k in kata {
      assert ToKatakana(ToHiragana(k)) == k;
    }
  }

  /** The `forEach` that adds a katakana copy of every digraph. */
  method BuildDigraphs(t: Tables) returns (digraphs: map<string, string>)
    requires t.Valid()
    ensures forall two :: two in digraphs <==> DigraphLookup(t, two).Some?
    ensures forall two :: two in digraphs ==> digraphs[two] == DigraphLookup(t, two).value
  {
    digraphs := t.digraphs;
    var pending := t.digraphs.Keys;
    while pending != {}
      invariant pending <= t.digraphs.Keys
      invariant forall h :: h in t.digraphs ==> h in digraphs
      invariant forall h :: h in t.digraphs && h !in pending ==> KanaShiftString(h) in digraphs
      invariant forall two :: two in digraphs ==> DigraphLookup(t, two).Some? && digraphs[two] == DigraphLookup(t, two).value
      decreases |pending|
    {
      var h :| h in pending;
      var k := KanaShiftString(h);
      ShiftedDigraph(t, h);
      digraphs := digraphs[k := t.digraphs[h]];
      pending := pending - {h};
    }
    forall two | DigraphLookup(t, two).Some? ensures two in digraphs {
      if two !in t.digraphs {
        DigraphFromShift(t, two);
      }
    }
  }

  /** The katakana copy of a digraph key is a new key that looks up the
      same reading. */
  lemma ShiftedDigraph(t: Tables, h: string)
    requires t.Valid() && h in t.digraphs
    ensures KanaShiftString(h) !in t.digraphs
    ensures DigraphLookup(t, KanaShiftString(h)) == Some(t.digraphs[h])
  {
    var k := KanaShiftString(h);
    assert [ToHiragana(k[0]), ToHiragana(k[1])] == h;
    assert !InHiraganaBlock(k[0]);
  }

  /** Every katakana digraph the lookup knows is the copy of a key. */
  lemma DigraphFromShift(t: Tables, two: string)
    requires t.Valid() && DigraphLookup(t, two).Some? && two !in t.digraphs
    ensures [ToHiragana(two[0]), ToHiragana(two[1])] in t.digraphs
    ensures KanaShiftString([ToHiragana(two[0]), ToHiragana(two[1])]) == two
  {
  }

  /** Table construction and the conversion loop over the tables `t`. */
  method RomanizeWith(t: Tables, input: Option<string>) returns (r: Option<string>)
    requires t.Valid()
    ensures r == RomanizedWith(t, input)
  {
    if input.None? || input.value == "" {
      return None;
    }
    var text := input.value;
    if HasAsciiAlnum(text) {
      return Some(Trim(text));
    }
    var katakana := BuildKatakanaMap(t);
    var digraphs := BuildDigraphs(t);
    var out := ConvertLoop(t, katakana, digraphs, Trim(text));
    var tidy := Tidy(out);
    r := if tidy == "" then None else Some(tidy);
  }

  /** The `while (i < s.length)` loop. */
  method ConvertLoop(t: Tables, katakana: map<char, string>, digraphs: map<string, string>, s: string)
    returns (out: string)
    requires forall k :: k in katakana <==> KatakanaLookup(t, k).Some?
    requires forall k :: k in katakana ==> katakana[k] == KatakanaLookup(t, k).value
    requires forall two :: two in digraphs <==> DigraphLookup(t, two).Some?
    requires forall two :: two in digraphs ==> digraphs[two] == DigraphLookup(t, two).value
    ensures out == Convert(t, s)
  {
    out := "";
    var i := 0;
    while i < |s|
      invariant 0 <= i <= |s|
      invariant out + Convert(t, s[i..]) == Convert(t, s)
      decreases |s| - i
    {
      out, i := Advance(t, katakana, digraphs, s, i, out);
    }
  }

  /** One turn: append the piece for index `i` and move past it. */
  method Advance(t: Tables, katakana: map<char, string>, digraphs: map<string, string>, s: string, i: nat, out: string)
    returns (out': string, i': nat)
    requires i < |s|
    requires forall k :: k in katakana <==> KatakanaLookup(t, k).Some?
    requires forall k :: k in katakana ==> katakana[k] == KatakanaLookup(t, k).value
    requires forall two :: two in digraphs <==> DigraphLookup(t, two).Some?
    requires forall two :: two in digraphs ==> digraphs[two] == DigraphLookup(t, two).value
    ensures i < i' <= |s|
    ensures out' + Convert(t, s[i'..]) == out + Convert(t, s[i..])
  {
    var piece, width := ConvertAt(t, katakana, digraphs, s, i);
    ConvertStep(t, s, i);
    assert (out + piece) + Convert(t, s[i + width..]) == out + (piece + Convert(t, s[i + width..]));
    out' := out + piece;
    i' := i + width;
  }

  /** The conversion of the input from `i` is one turn's output followed by
      the conversion of what that turn leaves. */
  lemma ConvertStep(t: Tables, s: string, i: nat)
    requires i < |s|
    ensures Convert(t, s[i..]) == StepOutput(t, s[i..]) + Convert(t, s[i + StepWidth(t, s[i..])..])
  {
    assert s[i..][StepWidth(t, s[i..])..] == s[i + StepWidth(t, s[i..])..];
  }

  /** One turn of the loop body at index `i`, using the built tables. */
  method ConvertAt(t: Tables, katakana: map<char, string>, digraphs: map<string, string>, s: string, i: nat)
    returns (piece: string, width: nat)
    requires i < |s|
    requires forall k :: k in katakana <==> KatakanaLookup(t, k).Some?
    requires forall k :: k in katakana ==> katakana[k] == KatakanaLookup(t, k).value
    requires forall two :: two in digraphs <==> DigraphLookup(t, two).Some?
    requires forall two :: two in digraphs ==> digraphs[two] == DigraphLookup(t, two).value
    ensures piece == StepOutput(t, s[i..]) && width == StepWidth(t, s[i..])
  {
    var rest := s[i..];
    assert rest[0] == s[i];
    assert i + 2 <= |s| ==> rest[..2] == s[i..i + 2];
    if i + 2 <= |s| && s[i..i + 2] in digraphs && digraphs[s[i..i + 2]] != "" {
      return digraphs[s[i..i + 2]], 2;
    }
    var ch := s[i];
    width := 1;
    if ch == 'っ' || ch == 'ッ' {
      piece := if i + 1 < |s| then SokuonLetter(t, s[i + 1]) else "";
    } else if ch in t.hiragana && t.hiragana[ch] != "" {
      piece := t.hiragana[ch];
    } else if ch in katakana && katakana[ch] != "" {
      piece := katakana[ch];
    } else {
      piece := [ch];
    }
  }

  /** `romanizeJapanese(input)`. */
  method RomanizeJapanese(input: Option<string>) returns (r: Option<string>)
    ensures r == Romanized(input)
  {
    ConstantTablesValid();
    r := RomanizeWith(TABLES, input);
  }

  /** A digraph wins over the single-kana rule and consumes both characters. */
  lemma {:induction false} DigraphTakesPrecedence(t: Tables, two: string, rest: string)
    requires |two| == 2 && ValueOr(DigraphLookup(t, two)) != ""
    ensures Convert(t, two + rest) == DigraphLookup(t, two).value + Convert(t, rest)
  {
    var s := two + rest;
    assert s[..2] == two && s[2..] == rest;
  }

  /** A small tsu writes at most the first letter of the next kana and leaves
      that kana to be converted normally. */
  lemma {:induction false} SmallTsu(t: Tables, tsu: char, next: char, rest: string)
    requires t.Valid() && IsSmallTsu(tsu)
    ensures Convert(t, [tsu, next] + rest) == SokuonLetter(t, next) + Convert(t, [next] + rest)
  {
    var s := [tsu, next] + rest;
    assert s[..2] == [tsu, next];
    assert DigraphLookup(t, [tsu, next]).None? by {
      assert [tsu, next][0] == tsu;
      if tsu == 'ッ' { assert ToHiragana(tsu) == 'っ'; }
    }
    assert s[1..] == [next] + rest;
  }

  /** The result is `null` exactly when the input is missing or empty, or
      when nothing is left after conversion and tidying. */
  lemma RomanizedNull(t: Tables, input: Option<string>)
    ensures RomanizedWith(t, input).None? <==>
      (input.None? || input.value == "" ||
       (!HasAsciiAlnum(input.value) && Tidy(Convert(t, Trim(input.value))) == ""))
  {
  }

  /** A non-null result is non-empty and trimmed. */
  lemma {:induction false} RomanizedTrimmed(t: Tables, input: Option<string>)
    ensures RomanizedWith(t, input).Some? ==>
      (var v := RomanizedWith(t, input).value; v != "" && !IsSpace(v[0]) && !IsSpace(v[|v| - 1]))
  {
    if input.Some? && input.value != "" {
      if HasAsciiAlnum(input.value) {
        var i :| 0 <= i < |input.value| && IsAsciiAlnum(input.value[i]);
        assert !IsSpace(input.value[i]);
      } else {
        TidyTrimmed(Convert(t, Trim(input.value)));
      }
    }
  }

  /** On the kana path the result has no doubled whitespace and no "--". */
  lemma {:induction false} RomanizedTidy(t: Tables, input: Option<string>)
    ensures RomanizedWith(t, input).Some? && !HasAsciiAlnum(input.value) ==>
      NoAdjacent(RomanizedWith(t, input).value, IsSpace) && NoAdjacent(RomanizedWith(t, input).value, IsDash)
  {
    if input.Some? && input.value != "" && !HasAsciiAlnum(input.value) {
      TidyShape(Convert(t, Trim(input.value)));
    }
  }

  /** One loop turn on shifted input matches the turn on the hiragana it was
      shifted from. */
  lemma {:induction false} StepAgrees(t: Tables, s: string)
    requires t.Valid() && s != []
    requires forall i :: 0 <= i < |s| ==>
      s[i] in t.hiragana && InHiraganaBlock(s[i]) && (t.hiragana[s[i]] != "" || s[i] == 'っ')
    ensures StepWidth(t, KanaShiftString(s)) == StepWidth(t, s)
    ensures StepOutput(t, KanaShiftString(s)) == StepOutput(t, s)
  {
    var k := KanaShiftString(s);
    assert ToHiragana(k[0]) == s[0];
    assert k[0] !in t.hiragana;
    assert IsSmallTsu(k[0]) <==> IsSmallTsu(s[0]);
    if |s| >= 2 {
      assert k[..2] == KanaShiftString(s[..2]);
      assert [ToHiragana(k[0]), ToHiragana(k[1])] == s[..2];
      assert !InHiraganaBlock(k[0]);
      assert k[..2] !in t.digraphs;
      assert DigraphLookup(t, k[..2]) == DigraphLookup(t, s[..2]);
      assert k[1] !in t.hiragana;
      assert ToHiragana(k[1]) == s[1];
      assert SokuonLetter(t, k[1]) == SokuonLetter(t, s[1]);
    }
  }

  /** Katakana written with the shifted code points of table kana converts
      exactly like the hiragana it was shifted from. */
  lemma {:induction false} KatakanaAgreesWithHiragana(t: Tables, s: string)
    requires t.Valid()
    requires forall i :: 0 <= i < |s| ==>
      s[i] in t.hiragana && InHiraganaBlock(s[i]) && (t.hiragana[s[i]] != "" || s[i] == 'っ')
    ensures Convert(t, KanaShiftString(s)) == Convert(t, s)
    decreases |s|
  {
    if s != [] {
      var k := KanaShiftString(s);
      StepAgrees(t, s);
      var w := StepWidth(t, s);
      assert k[w..] == KanaShiftString(s[w..]);
      KatakanaAgreesWithHiragana(t, s[w..]);
    }
  }
}
