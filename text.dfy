/** The JavaScript string operations the console relies on, on `seq<char>`:
    `toLowerCase`, `trim`, `includes`, and the decimal rendering of a
    non-negative number inside a template string. */
module Text {

  /** Upper-case letters that `toLowerCase` maps one step down: ASCII A-Z
      and the Latin-1 capitals (which include the Swedish Å, Ä and Ö). */
  predicate IsUpper(c: char) {
    ('A' <= c <= 'Z') || ('\U{00C0}' <= c <= '\U{00DE}' && c != '\U{00D7}')
  }

  function LowerChar(c: char): (r: char)
    ensures !IsUpper(r)
    ensures !IsUpper(c) ==> r == c
  {
    if IsUpper(c) then (c as int + 32) as char else c
  }

  /** `s.toLowerCase()`, character by character. */
  function Lower(s: string): (r: string)
    ensures |r| == |s|
    ensures forall i :: 0 <= i < |s| ==> r[i] == LowerChar(s[i])
  {
    seq(|s|, i requires 0 <= i < |s| => LowerChar(s[i]))
  }

  predicate IsLowerCase(s: string) {
    forall i :: 0 <= i < |s| ==> !IsUpper(s[i])
  }

  /** The characters `trim` removes: ECMAScript WhiteSpace and LineTerminator. */
  predicate IsWhitespace(c: char) {
    c == '\t' || c == '\n' || c == '\U{000B}' || c == '\U{000C}' || c == '\r' ||
    c == ' ' || c == '\U{00A0}' || c == '\U{1680}' || ('\U{2000}' <= c <= '\U{200A}') ||
    c == '\U{2028}' || c == '\U{2029}' || c == '\U{202F}' || c == '\U{205F}' ||
    c == '\U{3000}' || c == '\U{FEFF}'
  }

  function TrimStart(s: string): (r: string)
    ensures |r| <= |s| && r == s[|s| - |r|..]
    ensures r == [] || !IsWhitespace(r[0])
    ensures forall i :: 0 <= i < |s| - |r| ==> IsWhitespace(s[i])
  {
    if s != [] && IsWhitespace(s[0]) then TrimStart(s[1..]) else s
  }

  function TrimEnd(s: string): (r: string)
    ensures |r| <= |s| && r == s[..|r|]
    ensures r == [] || !IsWhitespace(r[|r| - 1])
    ensures forall i :: |r| <= i < |s| ==> IsWhitespace(s[i])
  {
    if s != [] && IsWhitespace(s[|s| - 1]) then TrimEnd(s[..|s| - 1]) else s
  }

  /** `s.trim()`: `s` with its leading and its trailing whitespace cut off;
      what remains is a slice of `s` that neither starts nor ends with
      whitespace, and `TrimCutsWhitespace` says that everything cut is
      whitespace. */
  function Trim(s: string): (r: string)
    ensures |r| <= |s| - TrimStartCount(s)
    ensures r == s[TrimStartCount(s)..TrimStartCount(s) + |r|]
    ensures r == [] || (!IsWhitespace(r[0]) && !IsWhitespace(r[|r| - 1]))
  {
    TrimEnd(TrimStart(s))
  }

  /** `trim` cuts only whitespace, before and after the slice it keeps. */
  lemma TrimCutsWhitespace(s: string)
    ensures forall i :: 0 <= i < TrimStartCount(s) ==> IsWhitespace(s[i])
    ensures forall i :: TrimStartCount(s) + |Trim(s)| <= i < |s| ==> IsWhitespace(s[i])
  {
    var t := TrimStart(s);
    var lo := TrimStartCount(s);
    forall i | lo + |Trim(s)| <= i < |s| ensures IsWhitespace(s[i]) {
      assert s[i] == t[i - lo];
    }
  }

  /** How many characters `trim` cuts from the front of `s`. */
  function TrimStartCount(s: string): nat
  {
    |s| - |TrimStart(s)|
  }

  /** `s.toLowerCase().trim()`, the normal form of an e-mail address. What
      it keeps of `s` and what it cuts is stated by `NormalizeKeepsSlice`
      and `NormalizeCutsWhitespace`. */
  function NormalizeEmail(s: string): (r: string)
    ensures IsLowerCase(r)
    ensures r == [] || (!IsWhitespace(r[0]) && !IsWhitespace(r[|r| - 1]))
  {
    var l := Lower(s);
    SliceIsLowerCase(l, TrimStartCount(l), TrimStartCount(l) + |Trim(l)|);
    Trim(l)
  }

  /** The normal form is a slice of `s`, lower-cased: it starts where
      `trim` stops cutting and is no longer than `s`. */
  lemma NormalizeKeepsSlice(s: string)
    ensures |NormalizeEmail(s)| <= |s|
    ensures TrimStartCount(Lower(s)) + |NormalizeEmail(s)| <= |s|
    ensures NormalizeEmail(s) == Lower(s[TrimStartCount(Lower(s))..TrimStartCount(Lower(s)) + |NormalizeEmail(s)|])
  {
    var lo := TrimStartCount(Lower(s));
    var r := NormalizeEmail(s);
    NormalizeSlicesLower(s);
    LowerSlice(s, lo, lo + |r|);
  }

  lemma NormalizeSlicesLower(s: string)
    ensures TrimStartCount(Lower(s)) + |NormalizeEmail(s)| <= |s|
    ensures NormalizeEmail(s) == Lower(s)[TrimStartCount(Lower(s))..TrimStartCount(Lower(s)) + |NormalizeEmail(s)|]
  {
    var l := Lower(s);
    assert NormalizeEmail(s) == Trim(l);
  }

  /** Lower-casing a slice is slicing the lower-cased string. */
  lemma LowerSlice(s: string, lo: nat, hi: nat)
    requires lo <= hi <= |s|
    ensures Lower(s)[lo..hi] == Lower(s[lo..hi])
  {
    assert forall k :: 0 <= k < hi - lo ==> Lower(s)[lo..hi][k] == LowerChar(s[lo..hi][k]);
  }

  /** Normalising cuts nothing but whitespace of `s`, before and after the
      slice it keeps. */
  lemma NormalizeCutsWhitespace(s: string)
    ensures TrimStartCount(Lower(s)) + |NormalizeEmail(s)| <= |s|
    ensures forall i :: 0 <= i < TrimStartCount(Lower(s)) ==> IsWhitespace(s[i])
    ensures forall i :: TrimStartCount(Lower(s)) + |NormalizeEmail(s)| <= i < |s| ==> IsWhitespace(s[i])
  {
    var l := Lower(s);
    var lo := TrimStartCount(l);
    var hi := lo + |Trim(l)|;
    TrimCutsWhitespace(l);
    forall i | 0 <= i < lo ensures IsWhitespace(s[i]) {
      assert IsWhitespace(l[i]);
      LowerCharKeepsWhitespace(s[i]);
    }
    forall i | hi <= i < |s| ensures IsWhitespace(s[i]) {
      assert IsWhitespace(l[i]);
      LowerCharKeepsWhitespace(s[i]);
    }
  }

  /** Lower-casing creates no whitespace. */
  lemma LowerCharKeepsWhitespace(c: char)
    requires IsWhitespace(LowerChar(c))
    ensures IsWhitespace(c)
  {
  }

  lemma SliceIsLowerCase(s: string, lo: nat, hi: nat)
    requires lo <= hi <= |s| && IsLowerCase(s)
    ensures IsLowerCase(s[lo..hi])
  {
    assert forall k :: 0 <= k < hi - lo ==> s[lo..hi][k] == s[lo + k];
  }

  lemma LowerOfLowerCase(s: string)
    requires IsLowerCase(s)
    ensures Lower(s) == s
  {
    assert forall i :: 0 <= i < |s| ==> Lower(s)[i] == s[i];
  }

  lemma {:induction false} TrimOfTrimmed(s: string)
    requires s == [] || (!IsWhitespace(s[0]) && !IsWhitespace(s[|s| - 1]))
    ensures Trim(s) == s
  {
  }

  /** Normalising twice is normalising once: a stored, normalised address
      matches its own normal form. */
  lemma NormalizeIdempotent(s: string)
    ensures NormalizeEmail(NormalizeEmail(s)) == NormalizeEmail(s)
  {
    var n := NormalizeEmail(s);
    LowerOfLowerCase(n);
    TrimOfTrimmed(n);
  }

  /** `needle` occurs in `hay` starting at position `i`. */
  predicate OccursAt(hay: string, needle: string, i: int) {
    0 <= i && i + |needle| <= |hay| && hay[i..i + |needle|] == needle
  }

  /** `hay.includes(needle)`: some position of `hay` starts a copy of
      `needle`; the empty needle occurs everywhere. */
  function Includes(hay: string, needle: string): bool
    decreases |hay|
  {
    if needle <= hay then true
    else if |hay| <= |needle| then false
    else Includes(hay[1..], needle)
  }

  /** `includes` answers whether some position of `hay` starts a copy of
      `needle`. */
  lemma {:induction false} IncludesIff(hay: string, needle: string)
    ensures Includes(hay, needle) <==> exists i :: OccursAt(hay, needle, i)
    decreases |hay|
  {
    if needle <= hay {
      assert OccursAt(hay, needle, 0);
    } else if |hay| <= |needle| {
      assert forall i :: !OccursAt(hay, needle, i) by {
        forall i | OccursAt(hay, needle, i) ensures false {
        }
      }
    } else {
      IncludesIff(hay[1..], needle);
      var r := Includes(hay[1..], needle);
      assert r ==> exists i :: OccursAt(hay, needle, i) by {
        if r {
          var i :| OccursAt(hay[1..], needle, i);
          assert hay[1..][i..i + |needle|] == hay[i + 1..i + 1 + |needle|];
          assert OccursAt(hay, needle, i + 1);
        }
      }
      assert (exists i :: OccursAt(hay, needle, i)) ==> r by {
        if exists i :: OccursAt(hay, needle, i) {
          var i :| OccursAt(hay, needle, i);
          assert i != 0;
          assert hay[1..][i - 1..i - 1 + |needle|] == hay[i..i + |needle|];
          assert OccursAt(hay[1..], needle, i - 1);
        }
      }
    }
  }

  function DigitChar(d: nat): (c: char)
    requires d < 10
  {
    ['0', '1', '2', '3', '4', '5', '6', '7', '8', '9'][d]
  }

  /** The decimal rendering of `n`, as in a template string `${n}`. */
  function DecimalString(n: nat): (r: string)
    ensures |r| >= 1
    ensures forall i :: 0 <= i < |r| ==> '0' <= r[i] <= '9'
    ensures r[0] == '0' ==> n == 0
  {
    if n < 10 then [DigitChar(n)] else DecimalString(n / 10) + [DigitChar(n % 10)]
  }

  /** The value of a string of decimal digits. */
  function DecimalValue(s: string): nat
    requires forall i :: 0 <= i < |s| ==> '0' <= s[i] <= '9'
  {
    if s == [] then 0 else 10 * DecimalValue(s[..|s| - 1]) + (s[|s| - 1] as int - '0' as int)
  }

  /** Reading the rendering back gives the number: the decimal rendering is
      injective, so distinct timestamps give distinct file names. */
  lemma {:induction false} DecimalRoundTrip(n: nat)
    ensures DecimalValue(DecimalString(n)) == n
  {
    if n >= 10 {
      var r := DecimalString(n);
      assert r[..|r| - 1] == DecimalString(n / 10);
      DecimalRoundTrip(n / 10);
    }
  }
}
