/** `decodeURIComponent` and its inverse `encodeURIComponent`, on strings of
    Unicode scalar values, following the Decode and Encode abstract
    operations of ECMA-262 (section 19.2.6): an escape `%XY` stands for one
    byte, a byte of 0x80 or more starts a UTF-8 sequence whose remaining
    bytes are escapes too, and anything malformed is a URIError (`None`). */
module UriComponent {
  import opened Types

  predicate IsHexDigit(c: char) {
    '0' <= c <= '9' || 'a' <= c <= 'f' || 'A' <= c <= 'F'
  }

  function HexValue(c: char): (v: nat)
    requires IsHexDigit(c)
    ensures v < 16
  {
    if '0' <= c <= '9' then c as int - '0' as int
    else if 'a' <= c <= 'f' then c as int - 'a' as int + 10
    else c as int - 'A' as int + 10
  }

  /** The upper-case digit `encodeURIComponent` writes. */
  function HexDigit(v: nat): (c: char)
    requires v < 16
    ensures IsHexDigit(c) && HexValue(c) == v
  {
    if v < 10 then ('0' as int + v) as char else ('A' as int + v - 10) as char
  }

  /** The byte an escape `%XY` at position `i` of `s` stands for. */
  function EscapeAt(s: string, i: nat): (b: Option<nat>)
    ensures b.Some? <==> i + 3 <= |s| && s[i] == '%' && IsHexDigit(s[i + 1]) && IsHexDigit(s[i + 2])
    ensures b.Some? ==> b.value == 16 * HexValue(s[i + 1]) + HexValue(s[i + 2]) && b.value < 256
  {
    if i + 3 <= |s| && s[i] == '%' && IsHexDigit(s[i + 1]) && IsHexDigit(s[i + 2])
    then Some(16 * HexValue(s[i + 1]) + HexValue(s[i + 2]))
    else None
  }

  /** How many bytes the UTF-8 sequence a byte starts has: 1 for ASCII,
      2 to 4 for a lead byte, 0 for a byte that cannot start one. */
  function SequenceLength(b: nat): (n: nat)
    ensures n <= 4
  {
    if b < 0x80 then 1
    else if 0xC0 <= b < 0xE0 then 2
    else if 0xE0 <= b < 0xF0 then 3
    else if 0xF0 <= b < 0xF8 then 4
    else 0
  }

  /** The payload bits of the `j`-th byte of a sequence: its escape must be
      there and stand for a continuation byte 10xxxxxx. */
  function Continuation(s: string, j: nat): (r: Option<nat>)
    ensures r.Some? ==> r.value < 64
  {
    match EscapeAt(s, 3 * j)
    case None => None
    case Some(b) => if 0x80 <= b < 0xC0 then Some(b - 0x80) else None
  }

  /** The smallest code point a sequence of `n` bytes may encode; anything
      below is an overlong encoding. */
  function MinCodePoint(n: nat): nat {
    if n == 2 then 0x80 else if n == 3 then 0x800 else 0x10000
  }

  /** The code point a sequence of `n` escaped bytes with lead byte `b`
      encodes, once its continuation bytes are all there. */
  function CodePoint(s: string, b: nat, n: nat): (r: Option<int>)
    requires 2 <= n <= 4
  {
    var c1 := Continuation(s, 1);
    var c2 := if n >= 3 then Continuation(s, 2) else Some(0);
    var c3 := if n == 4 then Continuation(s, 3) else Some(0);
    if c1.None? || c2.None? || c3.None? then None
    else if n == 2 then Some((b - 0xC0) * 64 + c1.value)
    else if n == 3 then Some((b - 0xE0) * 4096 + c1.value * 64 + c2.value)
    else Some((b - 0xF0) * 262144 + c1.value * 4096 + c2.value * 64 + c3.value)
  }

  /** The character an escaped sequence starting with byte `b` decodes to:
      the byte itself below 0x80, otherwise the code point of a complete,
      shortest, non-surrogate UTF-8 sequence. */
  function DecodeSequence(s: string, b: nat): (r: Option<(char, nat)>)
    requires b < 256 && |s| >= 3
    ensures r.Some? ==> 3 <= r.value.1 <= |s|
  {
    var n := SequenceLength(b);
    if n == 0 then None
    else if n == 1 then Some((b as char, 3))
    else if |s| < 3 * n then None
    else match CodePoint(s, b, n)
      case None => None
      case Some(cp) =>
        if cp < MinCodePoint(n) || cp > 0x10FFFF || (0xD800 <= cp <= 0xDFFF) then None
        else Some((cp as char, 3 * n))
  }

  /** The first character `s` decodes to and how many characters of `s`
      it takes. */
  function DecodeOne(s: string): (r: Option<(char, nat)>)
    requires s != []
    ensures r.Some? ==> 1 <= r.value.1 <= |s|
  {
    if s[0] != '%' then Some((s[0], 1))
    else match EscapeAt(s, 0)
      case None => None
      case Some(b) => DecodeSequence(s, b)
  }

  /** `decodeURIComponent(s)`; `None` is the URIError it throws. */
  function Decode(s: string): (r: Option<string>)
    decreases |s|
  {
    if s == [] then Some([])
    else match DecodeOne(s)
      case None => None
      case Some((c, k)) =>
        match Decode(s[k..])
        case None => None
        case Some(rest) => Some([c] + rest)
  }

  /** The characters `encodeURIComponent` leaves as they are. */
  predicate IsUnreserved(c: char) {
    ('A' <= c <= 'Z') || ('a' <= c <= 'z') || ('0' <= c <= '9') ||
    c == '-' || c == '_' || c == '.' || c == '!' || c == '~' || c == '*' || c == '\'' || c == '(' || c == ')'
  }

  /** What an encoding is made of: escapes and unreserved characters. */
  predicate IsEncoded(e: string) {
    forall i :: 0 <= i < |e| ==> e[i] == '%' || IsUnreserved(e[i])
  }

  function EscapeByte(b: nat): (e: string)
    requires b < 256
    ensures |e| == 3 && e[0] == '%'
    ensures IsEncoded(e)
  {
    ['%', HexDigit(b / 16), HexDigit(b % 16)]
  }

  /** The escapes of a two-byte UTF-8 sequence with payload `hi`, `lo`. */
  function Escape2(hi: nat, lo: nat): (e: string)
    requires hi < 32 && lo < 64
    ensures |e| == 6 && IsEncoded(e)
  {
    EscapeByte(0xC0 + hi) + EscapeByte(0x80 + lo)
  }

  /** The escapes of a three-byte UTF-8 sequence. */
  function Escape3(hi: nat, mid: nat, lo: nat): (e: string)
    requires hi < 16 && mid < 64 && lo < 64
    ensures |e| == 9 && IsEncoded(e)
  {
    EscapeByte(0xE0 + hi) + EscapeByte(0x80 + mid) + EscapeByte(0x80 + lo)
  }

  /** The escapes of a four-byte UTF-8 sequence. */
  function Escape4(top: nat, hi: nat, mid: nat, lo: nat): (e: string)
    requires top < 8 && hi < 64 && mid < 64 && lo < 64
    ensures |e| == 12 && IsEncoded(e)
  {
    EscapeByte(0xF0 + top) + EscapeByte(0x80 + hi) + EscapeByte(0x80 + mid) + EscapeByte(0x80 + lo)
  }

  /** The escapes of the UTF-8 encoding of `c`. */
  function EscapeChar(c: char): (e: string)
    ensures IsEncoded(e)
  {
    var cp := c as int;
    if cp < 0x80 then EscapeByte(cp)
    else if cp < 0x800 then Escape2(cp / 64, cp % 64)
    else if cp < 0x10000 then Escape3(cp / 4096, (cp / 64) % 64, cp % 64)
    else Escape4(cp / 262144, (cp / 4096) % 64, (cp / 64) % 64, cp % 64)
  }

  function EncodeChar(c: char): (e: string)
    ensures |e| >= 1 && IsEncoded(e)
  {
    if IsUnreserved(c) then [c] else EscapeChar(c)
  }

  /** `encodeURIComponent(s)`: the result has no `/`, `?` or `#` left. */
  function Encode(s: string): (r: string)
    ensures IsEncoded(r)
    ensures '/' !in r && '?' !in r && '#' !in r
  {
    if s == [] then [] else EncodeChar(s[0]) + Encode(s[1..])
  }

  /** Decoding the encoding of a character gives the character back and
      takes exactly its encoding. */
  lemma DecodeOneEncoded(c: char, t: string)
    ensures DecodeOne(EncodeChar(c) + t) == Some((c, |EncodeChar(c)|))
  {
    if !IsUnreserved(c) {
      var cp := c as int;
      if cp < 0x80 {
        var s := EncodeChar(c) + t;
        assert s == EscapeByte(cp) + t;
        EscapeRead(EscapeByte(cp), cp, s, 0);
      } else if cp < 0x800 {
        EncodedTwo(c, t);
      } else if cp < 0x10000 {
        EncodedThree(c, t);
      } else {
        EncodedFour(c, t);
      }
    }
  }

  lemma EncodedTwo(c: char, t: string)
    requires !IsUnreserved(c) && 0x80 <= c as int < 0x800
    ensures DecodeOne(EncodeChar(c) + t) == Some((c, |EncodeChar(c)|))
  {
    var cp := c as int;
    var hi, lo := Digits2(cp);
    EncodeReserved(c);
    EscapeCharTwo(c, hi, lo);
    DecodeTwo(hi, lo, EncodeChar(c) + t, t);
    CharOfCodePoint(c, hi * 64 + lo);
  }

  lemma EncodedThree(c: char, t: string)
    requires !IsUnreserved(c) && 0x800 <= c as int < 0x10000
    ensures DecodeOne(EncodeChar(c) + t) == Some((c, |EncodeChar(c)|))
  {
    var cp := c as int;
    var hi, mid, lo := Digits3(cp);
    EncodeReserved(c);
    EscapeCharThree(c, hi, mid, lo);
    DecodeThree(hi, mid, lo, EncodeChar(c) + t, t);
    CharOfCodePoint(c, hi * 4096 + mid * 64 + lo);
  }

  lemma EncodedFour(c: char, t: string)
    requires !IsUnreserved(c) && 0x10000 <= c as int
    ensures DecodeOne(EncodeChar(c) + t) == Some((c, |EncodeChar(c)|))
  {
    var cp := c as int;
    var top, hi, mid, lo := Digits4(cp);
    EncodeReserved(c);
    EscapeCharFour(c, top, hi, mid, lo);
    DecodeFour(top, hi, mid, lo, EncodeChar(c) + t, t);
    CharOfCodePoint(c, top * 262144 + hi * 4096 + mid * 64 + lo);
  }

  /** A character `encodeURIComponent` does not leave alone is escaped. */
  lemma EncodeReserved(c: char)
    requires !IsUnreserved(c)
    ensures EncodeChar(c) == EscapeChar(c)
  {
  }

  /** A code point read back is the character it was taken from. */
  lemma CharOfCodePoint(c: char, v: int)
    requires v == c as int
    ensures v as char == c
  {
  }

  /** The escapes of a character from U+0080 to U+07FF, written with its
      base-64 digits. */
  lemma EscapeCharTwo(c: char, hi: nat, lo: nat)
    requires 0x80 <= c as int < 0x800
    requires hi == (c as int) / 64 && lo == (c as int) % 64
    ensures EscapeChar(c) == Escape2(hi, lo)
  {
  }

  /** The escapes of a character from U+0800 to U+FFFF, written with its
      base-64 digits. */
  lemma EscapeCharThree(c: char, hi: nat, mid: nat, lo: nat)
    requires 0x800 <= c as int < 0x10000
    requires hi == (c as int) / 4096 && mid == ((c as int) / 64) % 64 && lo == (c as int) % 64
    ensures EscapeChar(c) == Escape3(hi, mid, lo)
  {
  }

  /** The escapes of a character outside the Basic Multilingual Plane,
      written with its base-64 digits. */
  lemma EscapeCharFour(c: char, top: nat, hi: nat, mid: nat, lo: nat)
    requires 0x10000 <= c as int
    requires top == (c as int) / 262144 && hi == ((c as int) / 4096) % 64
    requires mid == ((c as int) / 64) % 64 && lo == (c as int) % 64
    ensures EscapeChar(c) == Escape4(top, hi, mid, lo)
  {
  }

  /** The escape `e` at position `i` of `s` is read back as its byte. */
  lemma EscapeRead(e: string, b: nat, s: string, i: nat)
    requires b < 256 && e == EscapeByte(b)
    requires i + 3 <= |s| && s[i..i + 3] == e
    ensures EscapeAt(s, i) == Some(b)
  {
    assert s[i] == e[0] && s[i + 1] == e[1] && s[i + 2] == e[2];
  }

  /** A continuation byte written for six payload bits is read back as
      those bits. */
  lemma ContinuationRead(s: string, j: nat, bits: nat)
    requires bits < 64 && 3 * j + 3 <= |s| && s[3 * j..3 * j + 3] == EscapeByte(0x80 + bits)
    ensures Continuation(s, j) == Some(bits)
  {
    EscapeRead(EscapeByte(0x80 + bits), 0x80 + bits, s, 3 * j);
  }

  /** A code point in base 64: its UTF-8 payload groups. */
  lemma Split2(cp: nat)
    requires cp < 0x800
    ensures cp == (cp / 64) * 64 + cp % 64 && cp / 64 < 32
  {
  }

  lemma Digits2(cp: nat) returns (hi: nat, lo: nat)
    requires 0x80 <= cp < 0x800
    ensures hi == cp / 64 && lo == cp % 64
    ensures 2 <= hi < 32 && lo < 64
    ensures cp == hi * 64 + lo
  {
    hi, lo := cp / 64, cp % 64;
    Split2(cp);
  }

  lemma Digits3(cp: nat) returns (hi: nat, mid: nat, lo: nat)
    requires cp < 0x10000
    ensures hi == cp / 4096 && mid == (cp / 64) % 64 && lo == cp % 64
    ensures hi < 16 && mid < 64 && lo < 64
    ensures cp == hi * 4096 + mid * 64 + lo
  {
    hi, mid, lo := cp / 4096, (cp / 64) % 64, cp % 64;
    Split3(cp);
  }

  lemma Split3(cp: nat)
    requires cp < 0x10000
    ensures cp == (cp / 4096) * 4096 + ((cp / 64) % 64) * 64 + cp % 64 && cp / 4096 < 16
  {
    var q := cp / 64;
    assert cp == q * 64 + cp % 64;
    assert q == (q / 64) * 64 + q % 64;
    assert q / 64 == cp / 4096;
  }

  lemma Digits4(cp: nat) returns (top: nat, hi: nat, mid: nat, lo: nat)
    requires cp <= 0x10FFFF
    ensures top == cp / 262144 && hi == (cp / 4096) % 64 && mid == (cp / 64) % 64 && lo == cp % 64
    ensures top < 5 && hi < 64 && mid < 64 && lo < 64
    ensures cp == top * 262144 + hi * 4096 + mid * 64 + lo
  {
    top, hi, mid, lo := cp / 262144, (cp / 4096) % 64, (cp / 64) % 64, cp % 64;
    Split4(cp);
  }

  lemma Split4(cp: nat)
    requires cp <= 0x10FFFF
    ensures cp == (cp / 262144) * 262144 + ((cp / 4096) % 64) * 4096 + ((cp / 64) % 64) * 64 + cp % 64
    ensures cp / 262144 < 5
  {
    var q := cp / 64;
    var q2 := q / 64;
    assert cp == q * 64 + cp % 64;
    assert q == q2 * 64 + q % 64;
    assert q2 == (q2 / 64) * 64 + q2 % 64;
    assert q2 == cp / 4096;
    assert q2 / 64 == cp / 262144;
  }

  /** The escapes of a two-byte sequence are read back as its bytes. */
  lemma ReadTwo(hi: nat, lo: nat, s: string, t: string)
    requires hi < 32 && lo < 64
    requires s == Escape2(hi, lo) + t
    ensures |s| >= 6 && EscapeAt(s, 0) == Some(0xC0 + hi) && Continuation(s, 1) == Some(lo)
  {
    var e0, e1 := EscapeByte(0xC0 + hi), EscapeByte(0x80 + lo);
    assert s == e0 + e1 + t;
    assert s[0..3] == e0;
    EscapeRead(e0, 0xC0 + hi, s, 0);
    assert s[3..6] == e1;
    ContinuationRead(s, 1, lo);
  }

  lemma DecodeTwo(hi: nat, lo: nat, s: string, t: string)
    requires 2 <= hi < 32 && lo < 64
    requires s == Escape2(hi, lo) + t
    ensures DecodeOne(s) == Some(((hi * 64 + lo) as char, 6))
  {
    ReadTwo(hi, lo, s, t);
    var b0 := 0xC0 + hi;
    assert SequenceLength(b0) == 2;
    assert CodePoint(s, b0, 2) == Some(hi * 64 + lo);
  }

  /** The escapes of a three-byte sequence are read back as its bytes. */
  lemma ReadThree(hi: nat, mid: nat, lo: nat, s: string, t: string)
    requires hi < 16 && mid < 64 && lo < 64
    requires s == Escape3(hi, mid, lo) + t
    ensures |s| >= 9 && EscapeAt(s, 0) == Some(0xE0 + hi)
    ensures Continuation(s, 1) == Some(mid) && Continuation(s, 2) == Some(lo)
  {
    var e0, e1, e2 := EscapeByte(0xE0 + hi), EscapeByte(0x80 + mid), EscapeByte(0x80 + lo);
    assert s == e0 + e1 + e2 + t;
    assert s[0..3] == e0;
    EscapeRead(e0, 0xE0 + hi, s, 0);
    assert s[3..6] == e1;
    ContinuationRead(s, 1, mid);
    assert s[6..9] == e2;
    ContinuationRead(s, 2, lo);
  }

  lemma DecodeThree(hi: nat, mid: nat, lo: nat, s: string, t: string)
    requires hi < 16 && mid < 64 && lo < 64
    requires 0x800 <= hi * 4096 + mid * 64 + lo && !(0xD800 <= hi * 4096 + mid * 64 + lo <= 0xDFFF)
    requires s == Escape3(hi, mid, lo) + t
    ensures DecodeOne(s) == Some(((hi * 4096 + mid * 64 + lo) as char, 9))
  {
    ReadThree(hi, mid, lo, s, t);
    var b0 := 0xE0 + hi;
    assert SequenceLength(b0) == 3;
    assert CodePoint(s, b0, 3) == Some(hi * 4096 + mid * 64 + lo);
  }

  /** The escapes of a four-byte sequence are read back as its bytes. */
  lemma ReadFour(top: nat, hi: nat, mid: nat, lo: nat, s: string, t: string)
    requires top < 5 && hi < 64 && mid < 64 && lo < 64
    requires s == Escape4(top, hi, mid, lo) + t
    ensures |s| >= 12 && EscapeAt(s, 0) == Some(0xF0 + top)
    ensures Continuation(s, 1) == Some(hi) && Continuation(s, 2) == Some(mid) && Continuation(s, 3) == Some(lo)
  {
    var e0, e1 := EscapeByte(0xF0 + top), EscapeByte(0x80 + hi);
    var e2, e3 := EscapeByte(0x80 + mid), EscapeByte(0x80 + lo);
    assert s == e0 + e1 + e2 + e3 + t;
    assert s[0..3] == e0;
    EscapeRead(e0, 0xF0 + top, s, 0);
    assert s[3..6] == e1;
    ContinuationRead(s, 1, hi);
    assert s[6..9] == e2;
    ContinuationRead(s, 2, mid);
    assert s[9..12] == e3;
    ContinuationRead(s, 3, lo);
  }

  lemma DecodeFour(top: nat, hi: nat, mid: nat, lo: nat, s: string, t: string)
    requires top < 5 && hi < 64 && mid < 64 && lo < 64
    requires 0x10000 <= top * 262144 + hi * 4096 + mid * 64 + lo <= 0x10FFFF
    requires s == Escape4(top, hi, mid, lo) + t
    ensures DecodeOne(s) == Some(((top * 262144 + hi * 4096 + mid * 64 + lo) as char, 12))
  {
    ReadFour(top, hi, mid, lo, s, t);
    var b0 := 0xF0 + top;
    assert SequenceLength(b0) == 4;
    assert CodePoint(s, b0, 4) == Some(top * 262144 + hi * 4096 + mid * 64 + lo);
  }

  /** The round trip: every string survives encoding and decoding. */
  lemma {:induction false} DecodeEncode(s: string)
    ensures Decode(Encode(s)) == Some(s)
  {
    if s != [] {
      var e := EncodeChar(s[0]);
      var rest := Encode(s[1..]);
      assert Encode(s) == e + rest;
      DecodeOneEncoded(s[0], rest);
      assert (e + rest)[|e|..] == rest;
      DecodeEncode(s[1..]);
      assert [s[0]] + s[1..] == s;
    }
  }
}
