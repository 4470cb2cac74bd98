/** `encodeURIComponent`, as the leaderboards use it to put a title into an
    image URL: each character is written in UTF-8 and every byte that is
    not an unreserved ASCII character becomes `%` and two upper-case hex
    digits. */
module Uri {
  import opened Wrappers
  import opened Text

  newtype byte = x: int | 0 <= x < 256

  /** The characters `encodeURIComponent` leaves as they are. */
  predicate IsUnreserved(c: char) {
    IsAsciiAlnum(c) || c == '-' || c == '_' || c == '.' || c == '!' || c == '~' || c == '*' || c == '\'' || c == '(' || c == ')'
  }

  /** The UTF-8 bytes of one Unicode scalar value. */
  function Utf8(c: char): (r: seq<byte>)
    ensures 1 <= |r| <= 4
    ensures (c as int < 0x80) <==> |r| == 1
    ensures c as int < 0x80 ==> r[0] as int == c as int
    ensures c as int >= 0x80 ==> forall k :: 0 <= k < |r| ==> r[k] >= 0x80
  {
    var cp := c as int;
    if cp < 0x80 then [cp as byte]
    else if cp < 0x800 then [(0xC0 + cp / 64) as byte, (0x80 + cp % 64) as byte]
    else if cp < 0x1_0000 then [(0xE0 + cp / 4096) as byte, (0x80 + cp / 64 % 64) as byte, (0x80 + cp % 64) as byte]
    else [(0xF0 + cp / 262144) as byte, (0x80 + cp / 4096 % 64) as byte, (0x80 + cp / 64 % 64) as byte, (0x80 + cp % 64) as byte]
  }

  function Utf8String(s: string): seq<byte> {
    if s == [] then [] else Utf8(s[0]) + Utf8String(s[1..])
  }

  function HexChar(d: nat): (c: char)
    requires d < 16
    ensures IsHexDigit(c) && HexDigitValue(c) == d
    ensures !IsAsciiLower(c)
  {
    if d < 10 then ('0' as int + d) as char else ('A' as int + d - 10) as char
  }

  /** A byte that is an unreserved character stands for itself. */
  predicate IsUnreservedByte(b: byte) {
    b < 0x80 && IsUnreserved(b as int as char)
  }

  /** One byte, percent-encoded unless it is an unreserved character. */
  function EncodeByte(b: byte): (r: string)
    ensures |r| == 1 || |r| == 3
    ensures r[0] == '%' || IsUnreserved(r[0])
    ensures |r| == 3 ==> r[0] == '%' && IsHexDigit(r[1]) && IsHexDigit(r[2])
  {
    if IsUnreservedByte(b) then [b as int as char]
    else ['%', HexChar(b as int / 16), HexChar(b as int % 16)]
  }

  /** Only unreserved characters, `%` and hex digits: in particular no `&`,
      `=`, `#`, `?` or `/` that would end or split a query parameter. */
  predicate IsEncoded(s: string) {
    forall k :: 0 <= k < |s| ==> IsUnreserved(s[k]) || s[k] == '%' || IsHexDigit(s[k])
  }

  function PercentEncode(bs: seq<byte>): (r: string)
    ensures IsEncoded(r)
  {
    if bs == [] then [] else EncodeByte(bs[0]) + PercentEncode(bs[1..])
  }

  /** `encodeURIComponent(s)`. */
  function EncodeURIComponent(s: string): (r: string)
    ensures IsEncoded(r)
  {
    PercentEncode(Utf8String(s))
  }

  /** Reading the bytes back: `%` with two hex digits is one byte, an ASCII
      character is its own byte, anything else is malformed. */
  function PercentDecode(s: string): Option<seq<byte>>
    decreases |s|
  {
    if s == [] then Some([])
    else if s[0] == '%' then
      if |s| < 3 || !IsHexDigit(s[1]) || !IsHexDigit(s[2]) then None
      else match PercentDecode(s[3..])
        case None => None
        case Some(rest) => Some([(16 * HexDigitValue(s[1]) + HexDigitValue(s[2])) as byte] + rest)
    else if s[0] as int < 0x80 then
      match PercentDecode(s[1..])
      case None => None
      case Some(rest) => Some([s[0] as int as byte] + rest)
    else None
  }

  /** Decoding one encoded byte in front of more text. */
  lemma DecodeByte(b: byte, rest: string)
    ensures PercentDecode(EncodeByte(b) + rest) ==
      match PercentDecode(rest) case None => None case Some(r) => Some([b] + r)
  {
    var s := EncodeByte(b) + rest;
    if IsUnreservedByte(b) {
      assert s[0] == b as int as char && s[1..] == rest;
    } else {
      assert s[0] == '%' && s[3..] == rest;
      assert 16 * HexDigitValue(s[1]) + HexDigitValue(s[2]) == b as int;
    }
  }

  /** Percent-decoding undoes percent-encoding. */
  lemma {:induction false} PercentRoundTrip(bs: seq<byte>)
    ensures PercentDecode(PercentEncode(bs)) == Some(bs)
    decreases |bs|
  {
    if bs != [] {
      PercentRoundTrip(bs[1..]);
      DecodeByte(bs[0], PercentEncode(bs[1..]));
      assert [bs[0]] + bs[1..] == bs;
    }
  }

  /** The encoded title decodes to the title's UTF-8 bytes. */
  lemma EncodeURIComponentRoundTrip(s: string)
    ensures PercentDecode(EncodeURIComponent(s)) == Some(Utf8String(s))
  {
    PercentRoundTrip(Utf8String(s));
  }

  /** A title made of unreserved characters is written as it is. */
  lemma {:induction false} UnreservedUnchanged(s: string)
    requires forall k :: 0 <= k < |s| ==> IsUnreserved(s[k])
    ensures EncodeURIComponent(s) == s
    decreases |s|
  {
    if s != [] {
      UnreservedUnchanged(s[1..]);
      assert Utf8(s[0]) == [s[0] as int as byte];
      assert [s[0]] + s[1..] == s;
    }
  }
}
