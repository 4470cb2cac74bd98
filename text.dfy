/** String primitives shared by the scrapers: the pieces of JavaScript's
    String API, regular-expression classes and `Math.min` that the source relies on.
    Case mapping covers ASCII letters only. */
module Text {
  import opened Wrappers

  predicate IsDigit(c: char) { '0' <= c <= '9' }
  predicate IsAsciiLower(c: char) { 'a' <= c <= 'z' }
  predicate IsAsciiUpper(c: char) { 'A' <= c <= 'Z' }
  predicate IsAsciiAlnum(c: char) { IsDigit(c) || IsAsciiLower(c) || IsAsciiUpper(c) }

  /** `\w` in a regular expression without the `u` flag. */
  predicate IsWordChar(c: char) { IsAsciiAlnum(c) || c == '_' }

  /** `Math.min` on naturals. */
  function Min(a: nat, b: nat): (m: nat)
    ensures m <= a && m <= b && (m == a || m == b)
  {
    if a <= b then a else b
  }

  /** `\s` in a JavaScript regular expression; `String.prototype.trim` strips the same set. */
  predicate IsSpace(c: char) {
    var n := c as int;
    n in {0x09, 0x0A, 0x0B, 0x0C, 0x0D, 0x20, 0xA0, 0x1680, 0x2028, 0x2029, 0x202F, 0x205F, 0x3000, 0xFEFF}
    || 0x2000 <= n <= 0x200A
  }

  function LowerChar(c: char): (r: char)
    ensures IsAsciiUpper(c) ==> IsAsciiLower(r)
    ensures !IsAsciiUpper(c) ==> r == c
  {
    if IsAsciiUpper(c) then (c as int + 32) as char else c
  }

  function UpperChar(c: char): (r: char)
    ensures IsAsciiLower(c) ==> IsAsciiUpper(r)
    ensures !IsAsciiLower(c) ==> r == c
  {
    if IsAsciiLower(c) then (c as int - 32) as char else c
  }

  /** `toLowerCase()` on ASCII letters. */
  function Lower(s: string): (r: string)
    ensures |r| == |s|
    ensures forall i :: 0 <= i < |s| ==> r[i] == LowerChar(s[i])
  {
    seq(|s|, i requires 0 <= i < |s| => LowerChar(s[i]))
  }

  lemma LowerEmpty(s: string)
    ensures Lower(s) == [] <==> s == []
  {
    if s != [] { assert Lower(s)[0] == LowerChar(s[0]); }
  }

  lemma LowerAppend(a: string, b: string)
    ensures Lower(a + b) == Lower(a) + Lower(b)
  {
    assert forall i :: 0 <= i < |a + b| ==> Lower(a + b)[i] == (Lower(a) + Lower(b))[i];
  }

  predicate StartsWith(s: string, p: string) { |p| <= |s| && s[..|p|] == p }
  predicate EndsWith(s: string, p: string) { |p| <= |s| && s[|s| - |p|..] == p }

  /** `s.includes(p)`. */
  predicate Contains(s: string, p: string)
    decreases |s|
  {
    StartsWith(s, p) || (|s| > 0 && Contains(s[1..], p))
  }

  /** An occurrence at any position makes `includes` true. */
  lemma {:induction false} ContainsAt(s: string, p: string, k: nat)
    requires k + |p| <= |s| && s[k..k + |p|] == p
    ensures Contains(s, p)
    decreases k
  {
    if k > 0 {
      assert s[1..][k - 1..k - 1 + |p|] == p;
      ContainsAt(s[1..], p, k - 1);
    }
  }

  /** The middle piece of an ending occurs in the string. */
  lemma MiddleOfEnding(s: string, x: string, d: string, y: string)
    requires EndsWith(s, x + d + y)
    ensures Contains(s, d)
  {
    var k := |s| - |y| - |d|;
    assert s[|s| - |x + d + y|..] == x + d + y;
    assert s[k..k + |d|] == (x + d + y)[|x|..|x| + |d|];
    ContainsAt(s, d, k);
  }

  /** `s.indexOf(p)`, with None for -1. */
  function IndexOf(s: string, p: string): (r: Option<nat>)
    ensures r.Some? ==> r.value + |p| <= |s| && s[r.value..r.value + |p|] == p
    ensures r.None? <==> !Contains(s, p)
    decreases |s|
  {
    if StartsWith(s, p) then Some(0)
    else if |s| == 0 then None
    else match IndexOf(s[1..], p)
      case None => None
      case Some(k) => Some(k + 1)
  }

  /** `s.replace(p, rep)` with a string pattern: only the first occurrence. */
  function ReplaceFirst(s: string, p: string, rep: string): string
  {
    match IndexOf(s, p)
    case None => s
    case Some(k) => s[..k] + rep + s[k + |p|..]
  }

  function TrimStart(s: string): (r: string)
    ensures r == [] || !IsSpace(r[0])
    ensures |r| <= |s| && r == s[|s| - |r|..]
    ensures forall i :: 0 <= i < |s| - |r| ==> IsSpace(s[i])
  {
    DropWhile(s, IsSpace)
  }

  function TrimEnd(s: string): (r: string)
    ensures r == [] || !IsSpace(r[|r| - 1])
    ensures |r| <= |s| && r == s[..|r|]
    ensures forall i :: |r| <= i < |s| ==> IsSpace(s[i])
  {
    DropWhileEnd(s, IsSpace)
  }

  /** `s.trim()`: one contiguous piece of `s`, starting at `TrimOffset(s)`,
      with no whitespace at either end; only whitespace is cut away, so a
      string with a non-whitespace character never trims to ''. */
  function Trim(s: string): (r: string)
    ensures r == [] || (!IsSpace(r[0]) && !IsSpace(r[|r| - 1]))
    ensures TrimOffset(s) + |r| <= |s| && r == s[TrimOffset(s)..TrimOffset(s) + |r|]
    ensures forall i :: 0 <= i < |s| && !IsSpace(s[i]) ==> TrimOffset(s) <= i < TrimOffset(s) + |r|
  {
    var t := TrimStart(s);
    var r := TrimEnd(t);
    assert r != [] ==> r[0] == t[0];
    assert t == s[TrimOffset(s)..];
    r
  }

  /** A string with no whitespace at either end trims to itself. */
  lemma TrimKeepsUnspaced(s: string)
    requires s == [] || (!IsSpace(s[0]) && !IsSpace(s[|s| - 1]))
    ensures Trim(s) == s
  {
    if s != [] {
      assert TrimOffset(s) == 0;
      assert |Trim(s)| == |s|;
    }
  }

  /** How many characters `trim()` cuts from the front. */
  function TrimOffset(s: string): nat {
    |s| - |TrimStart(s)|
  }

  /** `s.replace(/[^\d]/g, '')`. */
  function Digits(s: string): (r: string)
    ensures forall i :: 0 <= i < |r| ==> IsDigit(r[i])
    ensures |r| <= |s|
  {
    if s == [] then []
    else if IsDigit(s[0]) then [s[0]] + Digits(s[1..])
    else Digits(s[1..])
  }

  lemma {:induction false} DigitsAppend(a: string, b: string)
    ensures Digits(a + b) == Digits(a) + Digits(b)
    decreases |a|
  {
    if a != [] {
      var s := a + b;
      assert s[0] == a[0] && s[1..] == a[1..] + b;
      DigitsAppend(a[1..], b);
      if IsDigit(a[0]) {
        assert Digits(s) == [a[0]] + Digits(a[1..] + b);
      } else {
        assert Digits(s) == Digits(a[1..] + b);
      }
    } else {
      assert a + b == b;
    }
  }

  /** A run of digits keeps all its characters. */
  lemma {:induction false} DigitsOfDigits(s: string)
    requires forall i :: 0 <= i < |s| ==> IsDigit(s[i])
    ensures Digits(s) == s
    decreases |s|
  {
    if s != [] {
      DigitsOfDigits(s[1..]);
    }
  }

  /** `s.replace(/-/g, ' ')` and the like. */
  function ReplaceChar(s: string, a: char, b: char): (r: string)
    ensures |r| == |s|
    ensures forall i :: 0 <= i < |s| ==> r[i] == if s[i] == a then b else s[i]
  {
    seq(|s|, i requires 0 <= i < |s| => if s[i] == a then b else s[i])
  }

  /** `s.replace(/\b\w/g, c => c.toUpperCase())`: every word character that
      starts a word is upper-cased. */
  function CapitalizeWords(s: string): (r: string)
    ensures |r| == |s|
    ensures forall i :: 0 <= i < |s| ==>
      r[i] == if IsWordChar(s[i]) && (i == 0 || !IsWordChar(s[i - 1])) then UpperChar(s[i]) else s[i]
  {
    seq(|s|, i requires 0 <= i < |s| =>
      if IsWordChar(s[i]) && (i == 0 || !IsWordChar(s[i - 1])) then UpperChar(s[i]) else s[i])
  }

  /** `s.split(sep).pop()`: the text after the last `sep`, or all of `s`. */
  function LastSegment(s: string, sep: char): (r: string)
    ensures sep !in r
    ensures |r| <= |s| && r == s[|s| - |r|..]
    ensures |r| < |s| ==> s[|s| - |r| - 1] == sep
    decreases |s|
  {
    if s == [] then []
    else if s[|s| - 1] == sep then []
    else
      var p := s[..|s| - 1];
      var r := LastSegment(p, sep);
      assert s[|s| - |r| - 1..] == p[|p| - |r|..] + [s[|s| - 1]];
      assert |r| < |p| ==> s[|s| - |r| - 2] == p[|p| - |r| - 1];
      r + [s[|s| - 1]]
  }

  /** The last piece is whatever follows the last separator. */
  lemma {:induction false} LastSegmentAfter(a: string, sep: char, x: string)
    requires sep !in x
    ensures LastSegment(a + [sep] + x, sep) == x
    decreases |x|
  {
    var s := a + [sep] + x;
    if x != [] {
      assert s[|s| - 1] == x[|x| - 1];
      assert s[..|s| - 1] == a + [sep] + x[..|x| - 1];
      LastSegmentAfter(a, sep, x[..|x| - 1]);
    }
  }

  /** Decimal rendering of a natural number (`n.toString()`). */
  function NatToString(n: nat): (r: string)
    ensures |r| > 0 && forall i :: 0 <= i < |r| ==> IsDigit(r[i])
    decreases n
  {
    if n < 10 then [DigitChar(n)] else NatToString(n / 10) + [DigitChar(n % 10)]
  }

  function DigitChar(d: nat): (c: char)
    requires d < 10
    ensures IsDigit(c)
  {
    ('0' as int + d) as char
  }

  /** The pieces of `a + m + b` can be cut out again. */
  lemma Framed(a: string, m: string, b: string)
    ensures var r := a + m + b;
      |r| == |a| + |m| + |b| && StartsWith(r, a) && EndsWith(r, b) && r[|a|..|r| - |b|] == m
  {
    var r := a + m + b;
    assert r[..|a|] == a;
    assert r[|r| - |b|..] == b;
    assert r[|a|..|r| - |b|] == m;
  }

  /** A prefix of a suffix is a slice. */
  lemma PrefixOfSuffix(s: string, front: string, r: string)
    requires |front| <= |s| && front == s[|s| - |front|..]
    requires |r| <= |front| && r == front[..|r|]
    ensures r == s[|s| - |front|..|s| - |front| + |r|]
  {
    assert s[|s| - |front|..][..|r|] == s[|s| - |front|..|s| - |front| + |r|];
  }

  /** `s` without its longest prefix of characters satisfying `P`. */
  function DropWhile(s: string, P: char -> bool): (r: string)
    ensures |r| <= |s| && r == s[|s| - |r|..]
    ensures r == [] || !P(r[0])
    ensures forall i :: 0 <= i < |s| - |r| ==> P(s[i])
    decreases |s|
  {
    if s != [] && P(s[0]) then
      var r := DropWhile(s[1..], P);
      assert s[1..][|s| - 1 - |r|..] == s[|s| - |r|..];
      assert forall i :: 1 <= i < |s| - |r| ==> s[i] == s[1..][i - 1];
      r
    else s
  }

  /** The digits that start `s`. */
  function LeadingDigits(s: string): (r: string)
    ensures |r| <= |s| && r == s[..|r|]
    ensures forall i :: 0 <= i < |r| ==> IsDigit(r[i])
    ensures |r| == |s| || !IsDigit(s[|r|])
  {
    var rest := DropWhile(s, IsDigit);
    assert forall i :: 0 <= i < |s| - |rest| ==> IsDigit(s[i]) by {
      DropWhilePrefix(s, IsDigit);
    }
    s[..|s| - |rest|]
  }

  lemma {:induction false} DropWhilePrefix(s: string, P: char -> bool)
    ensures forall i :: 0 <= i < |s| - |DropWhile(s, P)| ==> P(s[i])
    decreases |s|
  {
    if s != [] && P(s[0]) {
      DropWhilePrefix(s[1..], P);
      assert forall i :: 1 <= i < |s| - |DropWhile(s, P)| ==> s[i] == s[1..][i - 1];
    }
  }

  /** `s` without its longest suffix of characters satisfying `P`. */
  function DropWhileEnd(s: string, P: char -> bool): (r: string)
    ensures |r| <= |s| && r == s[..|r|]
    ensures r == [] || !P(r[|r| - 1])
    ensures forall i :: |r| <= i < |s| ==> P(s[i])
    decreases |s|
  {
    if s != [] && P(s[|s| - 1]) then DropWhileEnd(s[..|s| - 1], P) else s
  }

  /** `s.replace(/X+/g, rep)` for a character class X given as `P`: every
      maximal run of X characters becomes one `rep`. */
  function CollapseRuns(s: string, P: char -> bool, rep: char): (r: string)
    ensures |r| <= |s|
    ensures s == [] <==> r == []
    ensures r != [] ==> r[0] == if P(s[0]) then rep else s[0]
    decreases |s|
  {
    if s == [] then []
    else if P(s[0]) then [rep] + CollapseRuns(DropWhile(s[1..], P), P, rep)
    else [s[0]] + CollapseRuns(s[1..], P, rep)
  }

  /** No two neighbouring characters both satisfy `Q`. */
  predicate NoAdjacent(s: string, Q: char -> bool) {
    forall i :: 0 <= i < |s| - 1 ==> !(Q(s[i]) && Q(s[i + 1]))
  }

  /** When the replacement is itself in the class, collapsing leaves no two
      class characters side by side. */
  lemma {:induction false} CollapseRunsNoAdjacent(s: string, P: char -> bool, rep: char)
    requires P(rep)
    ensures NoAdjacent(CollapseRuns(s, P, rep), P)
    decreases |s|
  {
    if s != [] {
      var r := CollapseRuns(s, P, rep);
      if P(s[0]) {
        var t := DropWhile(s[1..], P);
        CollapseRunsNoAdjacent(t, P, rep);
        assert r == [rep] + CollapseRuns(t, P, rep);
        if |r| > 1 {
          assert r[1] == t[0];
        }
        forall i | 0 <= i < |r| - 1 ensures !(P(r[i]) && P(r[i + 1])) {
          if i > 0 {
            assert r[i] == CollapseRuns(t, P, rep)[i - 1] && r[i + 1] == CollapseRuns(t, P, rep)[i];
          }
        }
      } else {
        CollapseRunsNoAdjacent(s[1..], P, rep);
        assert r == [s[0]] + CollapseRuns(s[1..], P, rep);
        forall i | 0 <= i < |r| - 1 ensures !(P(r[i]) && P(r[i + 1])) {
          if i > 0 {
            assert r[i] == CollapseRuns(s[1..], P, rep)[i - 1] && r[i + 1] == CollapseRuns(s[1..], P, rep)[i];
          }
        }
      }
    }
  }

  /** Collapsing one class keeps a "no two neighbours" property of a
      disjoint class, provided the replacement is not in it. */
  lemma {:induction false} CollapseRunsKeepsNoAdjacent(s: string, P: char -> bool, rep: char, Q: char -> bool)
    requires NoAdjacent(s, Q) && !Q(rep)
    requires forall c :: P(c) ==> !Q(c)
    ensures NoAdjacent(CollapseRuns(s, P, rep), Q)
    decreases |s|
  {
    if s != [] {
      var r := CollapseRuns(s, P, rep);
      if P(s[0]) {
        var t := DropWhile(s[1..], P);
        assert NoAdjacent(t, Q) by {
          forall i | 0 <= i < |t| - 1 ensures !(Q(t[i]) && Q(t[i + 1])) {
            var off := |s| - |t|;
            assert t[i] == s[off + i] && t[i + 1] == s[off + i + 1];
          }
        }
        CollapseRunsKeepsNoAdjacent(t, P, rep, Q);
        assert r == [rep] + CollapseRuns(t, P, rep);
        forall i | 0 <= i < |r| - 1 ensures !(Q(r[i]) && Q(r[i + 1])) {
          if i > 0 {
            assert r[i] == CollapseRuns(t, P, rep)[i - 1] && r[i + 1] == CollapseRuns(t, P, rep)[i];
          }
        }
      } else {
        var t := s[1..];
        assert NoAdjacent(t, Q) by {
          forall i | 0 <= i < |t| - 1 ensures !(Q(t[i]) && Q(t[i + 1])) {
            assert t[i] == s[i + 1] && t[i + 1] == s[i + 2];
          }
        }
        CollapseRunsKeepsNoAdjacent(t, P, rep, Q);
        assert r == [s[0]] + CollapseRuns(t, P, rep);
        forall i | 0 <= i < |r| - 1 ensures !(Q(r[i]) && Q(r[i + 1])) {
          if i > 0 {
            assert r[i] == CollapseRuns(t, P, rep)[i - 1] && r[i + 1] == CollapseRuns(t, P, rep)[i];
          } else if |r| > 1 {
            assert r[1] == CollapseRuns(t, P, rep)[0];
            assert r[1] == rep || r[1] == t[0];
          }
        }
      }
    }
  }

  /** A piece cut out of `s` keeps its "no two neighbours" property. */
  lemma SliceKeepsNoAdjacent(s: string, lo: nat, hi: nat, Q: char -> bool)
    requires lo <= hi <= |s| && NoAdjacent(s, Q)
    ensures NoAdjacent(s[lo..hi], Q)
  {
    var t := s[lo..hi];
    forall i | 0 <= i < |t| - 1 ensures !(Q(t[i]) && Q(t[i + 1])) {
      assert t[i] == s[lo + i] && t[i + 1] == s[lo + i + 1];
    }
  }

  /** Every character of a collapsed string is the replacement or an
      original character outside the class. */
  lemma {:induction false} CollapseRunsChars(s: string, P: char -> bool, rep: char)
    ensures forall i :: 0 <= i < |CollapseRuns(s, P, rep)| ==>
      CollapseRuns(s, P, rep)[i] == rep || (!P(CollapseRuns(s, P, rep)[i]) && CollapseRuns(s, P, rep)[i] in s)
    decreases |s|
  {
    if s != [] {
      var r := CollapseRuns(s, P, rep);
      if P(s[0]) {
        var t := DropWhile(s[1..], P);
        CollapseRunsChars(t, P, rep);
        assert r == [rep] + CollapseRuns(t, P, rep);
        forall i | 0 < i < |r| ensures r[i] == rep || (!P(r[i]) && r[i] in s) {
          assert r[i] == CollapseRuns(t, P, rep)[i - 1];
          assert forall c :: c in t ==> c in s;
        }
      } else {
        CollapseRunsChars(s[1..], P, rep);
        assert r == [s[0]] + CollapseRuns(s[1..], P, rep);
        forall i | 0 < i < |r| ensures r[i] == rep || (!P(r[i]) && r[i] in s) {
          assert r[i] == CollapseRuns(s[1..], P, rep)[i - 1];
        }
      }
    }
  }

  /** `s.replace(/[^X]/g, '')` for a class X given as `P`: the characters of
      `s` that are in the class, in order. */
  function Keep(s: string, P: char -> bool): (r: string)
    ensures |r| <= |s|
    ensures forall i :: 0 <= i < |r| ==> P(r[i]) && r[i] in s
    ensures (forall i :: 0 <= i < |s| ==> P(s[i])) ==> r == s
    decreases |s|
  {
    if s == [] then []
    else if P(s[0]) then [s[0]] + Keep(s[1..], P)
    else Keep(s[1..], P)
  }

  /** Capture 1 of `s.match(/(\d{1,max})/)`: the first digit of `s` and up to
      `max - 1` digits after it, or '' when `s` has no digit. */
  function FirstDigitRun(s: string, max: nat): (r: string)
    requires max >= 1
    ensures |r| <= max
    ensures forall i :: 0 <= i < |r| ==> IsDigit(r[i])
    ensures r == [] <==> forall i :: 0 <= i < |s| ==> !IsDigit(s[i])
    decreases |s|
  {
    if s == [] then []
    else if IsDigit(s[0]) then
      var run := s[..|s| - |DropWhile(s, IsDigit)|];
      if |run| <= max then run else run[..max]
    else FirstDigitRun(s[1..], max)
  }

  /** `a || b || c || …` over strings: the first non-empty one, or ''. */
  function FirstNonEmpty(cands: seq<string>): (r: string)
    ensures r == "" <==> forall i :: 0 <= i < |cands| ==> cands[i] == ""
    ensures r != "" ==> r in cands
  {
    if cands == [] then "" else if cands[0] != "" then cands[0] else FirstNonEmpty(cands[1..])
  }

  /** `parseInt(s, 10)` on a string of decimal digits. */
  function DecimalValue(s: string): nat
    requires forall i :: 0 <= i < |s| ==> IsDigit(s[i])
    decreases |s|
  {
    if s == [] then 0
    else
      assert IsDigit(s[|s| - 1]);
      DecimalValue(s[..|s| - 1]) * 10 + (s[|s| - 1] as int - '0' as int)
  }

  /** Parsing the decimal rendering of a number gives the number back. */
  lemma {:induction false} DecimalRoundTrip(n: nat)
    ensures DecimalValue(NatToString(n)) == n
    decreases n
  {
    var s := NatToString(n);
    if n >= 10 {
      DecimalRoundTrip(n / 10);
      assert s[..|s| - 1] == NatToString(n / 10);
    }
  }

  lemma {:induction false} KeepAppend(x: string, y: string, P: char -> bool)
    ensures Keep(x + y, P) == Keep(x, P) + Keep(y, P)
    decreases |x|
  {
    var s := x + y;
    if x == [] {
      assert s == y;
    } else {
      assert s[0] == x[0] && s[1..] == x[1..] + y;
      KeepAppend(x[1..], y, P);
    }
  }

  /** `s.split(sep)` for a one-character separator: never empty, and no
      piece holds the separator. */
  function Split(s: string, sep: char): (parts: seq<string>)
    ensures |parts| >= 1
    decreases |s|
  {
    if s == [] then [[]]
    else
      var rest := Split(s[1..], sep);
      if s[0] == sep then [[]] + rest else [[s[0]] + rest[0]] + rest[1..]
  }

  /** No piece of a split holds the separator. */
  lemma {:induction false} SplitPartsNoSep(s: string, sep: char)
    ensures forall i :: 0 <= i < |Split(s, sep)| ==> sep !in Split(s, sep)[i]
    decreases |s|
  {
    if s != [] {
      SplitPartsNoSep(s[1..], sep);
    }
  }

  /** `parts.join(sep)`. */
  function Join(parts: seq<string>, sep: char): string
    decreases |parts|
  {
    if parts == [] then [] else if |parts| == 1 then parts[0] else parts[0] + [sep] + Join(parts[1..], sep)
  }

  /** Joining the pieces of a split gives the string back. */
  lemma {:induction false} SplitJoin(s: string, sep: char)
    ensures Join(Split(s, sep), sep) == s
    decreases |s|
  {
    if s != [] {
      SplitJoin(s[1..], sep);
      var rest := Split(s[1..], sep);
      if s[0] == sep {
        assert Join([[]] + rest, sep) == [] + [sep] + Join(rest, sep);
      } else {
        var parts := [[s[0]] + rest[0]] + rest[1..];
        if |rest| == 1 {
          assert Join(parts, sep) == [s[0]] + rest[0];
        } else {
          assert parts[1..] == rest[1..];
          assert Join(parts, sep) == [s[0]] + rest[0] + [sep] + Join(rest[1..], sep);
        }
      }
    }
  }

  /** Splitting at a separator splits the two sides independently. */
  lemma {:induction false} SplitAppend(a: string, sep: char, b: string)
    ensures Split(a + [sep] + b, sep) == Split(a, sep) + Split(b, sep)
    decreases |a|
  {
    var s := a + [sep] + b;
    if a == [] {
      assert s[0] == sep && s[1..] == b;
    } else {
      assert s[0] == a[0] && s[1..] == a[1..] + [sep] + b;
      SplitAppend(a[1..], sep, b);
      var left := Split(a[1..], sep);
      var right := Split(b, sep);
      var rest := Split(s[1..], sep);
      assert rest == left + right;
      if a[0] != sep {
        assert rest[1..] == left[1..] + right;
      }
    }
  }

  /** A string without the separator is one piece. */
  lemma {:induction false} SplitNoSep(s: string, sep: char)
    requires sep !in s
    ensures Split(s, sep) == [s]
    decreases |s|
  {
    if s != [] {
      SplitNoSep(s[1..], sep);
      assert [s[0]] + s[1..] == s;
    }
  }

  // ------------------------------------------------------------ parseInt

  predicate IsHexDigit(c: char) { IsDigit(c) || 'a' <= c <= 'f' || 'A' <= c <= 'F' }

  function HexDigitValue(c: char): (v: nat)
    requires IsHexDigit(c)
    ensures v < 16
  {
    if IsDigit(c) then c as int - '0' as int
    else if 'a' <= c <= 'f' then c as int - 'a' as int + 10
    else c as int - 'A' as int + 10
  }

  /** The hexadecimal digits that start `s`. */
  function LeadingHexDigits(s: string): (r: string)
    ensures |r| <= |s| && r == s[..|r|]
    ensures forall i :: 0 <= i < |r| ==> IsHexDigit(r[i])
    decreases |s|
  {
    if s != [] && IsHexDigit(s[0]) then [s[0]] + LeadingHexDigits(s[1..]) else []
  }

  function HexValue(s: string): nat
    requires forall i :: 0 <= i < |s| ==> IsHexDigit(s[i])
    decreases |s|
  {
    if s == [] then 0 else 16 * HexValue(s[..|s| - 1]) + HexDigitValue(s[|s| - 1])
  }

  /** `String(n)` for an integer. */
  function IntToString(n: int): (r: string)
    ensures r != [] && (r[0] == '-' || IsDigit(r[0]))
  {
    if n < 0 then "-" + NatToString(-n) else NatToString(n)
  }

  /** `parseInt(s)` without a radix: leading whitespace is skipped, then an
      optional sign, then hexadecimal digits after "0x"/"0X" or decimal
      digits otherwise, as many as there are; None stands for NaN, when
      there is no digit at all. */
  function ParseInt(s: string): (r: Option<int>)
  {
    var t := TrimStart(s);
    if t != [] && t[0] == '-' then
      match Magnitude(t[1..])
      case None => None
      case Some(m) => Some(-m)
    else if t != [] && t[0] == '+' then Magnitude(t[1..])
    else Magnitude(t)
  }

  /** The unsigned part of `parseInt`. */
  function Magnitude(u: string): (r: Option<int>)
    ensures r.Some? ==> r.value >= 0
  {
    if |u| >= 2 && u[0] == '0' && (u[1] == 'x' || u[1] == 'X') then HexMagnitude(u[2..])
    else DecimalMagnitude(u)
  }

  function HexMagnitude(u: string): (r: Option<int>)
    ensures r.Some? ==> r.value >= 0
  {
    var h := LeadingHexDigits(u);
    if h == [] then None else Some(HexValue(h))
  }

  function DecimalMagnitude(u: string): (r: Option<int>)
    ensures r.Some? ==> r.value >= 0
  {
    var d := LeadingDigits(u);
    if d == [] then None else Some(DecimalValue(d))
  }

  /** Printing an integer and parsing it back gives the integer. */
  lemma ParseIntRoundTrip(n: int)
    ensures ParseInt(IntToString(n)) == Some(n)
  {
    var m: nat := if n < 0 then -n else n;
    MagnitudeRoundTrip(m);
    if n < 0 {
      var t := IntToString(n);
      ParseNegated(t);
      assert t[1..] == NatToString(m);
    } else {
      ParseUnsigned(NatToString(m));
    }
  }

  /** Text that starts with a digit is parsed by its unsigned part alone. */
  lemma ParseUnsigned(u: string)
    requires u != [] && IsDigit(u[0])
    ensures ParseInt(u) == Magnitude(u)
  {
    UnspacedStart(u);
  }

  /** A leading minus sign negates what the unsigned part reads after it. */
  lemma ParseNegated(t: string)
    requires t != [] && t[0] == '-'
    ensures ParseInt(t) == match Magnitude(t[1..]) case None => None case Some(k) => Some(-k)
  {
    UnspacedStart(t);
  }

  /** A string that starts with no whitespace is its own `TrimStart`. */
  lemma UnspacedStart(s: string)
    requires s != [] && !IsSpace(s[0])
    ensures TrimStart(s) == s
  {
  }

  /** The unsigned part of `parseInt` reads a rendered number back. */
  lemma MagnitudeRoundTrip(m: nat)
    ensures Magnitude(NatToString(m)) == Some(m)
  {
    AllDigitsLead(NatToString(m));
    DecimalRoundTrip(m);
  }

  /** A string of digits is its own leading-digit run, and is not "0x…". */
  lemma AllDigitsLead(u: string)
    requires forall i :: 0 <= i < |u| ==> IsDigit(u[i])
    ensures LeadingDigits(u) == u
    ensures !(|u| >= 2 && (u[1] == 'x' || u[1] == 'X'))
  {
  }
}
