/**
 * String helpers shared by the front end and the back end: substring search
 * (`String.prototype.includes`, Python `in`), ASCII case folding
 * (`toLowerCase`), UTF-16 length (`String.prototype.length`), Python's
 * `str.strip()`, and decimal conversion between integers and text
 * (JavaScript `String(n)`, Python `str(n)` and `int(s)`).
 */
module Text {
  import opened Wrappers

  // ---------------------------------------------------------------- search

  /** `needle` occurs in `hay` starting at index `i`. */
  predicate OccursAt(needle: string, hay: string, i: int)
  {
    0 <= i && i + |needle| <= |hay| && hay[i..i + |needle|] == needle
  }

  lemma OccursShift(needle: string, hay: string)
    requires |hay| > 0
    ensures forall i :: OccursAt(needle, hay[1..], i) ==> OccursAt(needle, hay, i + 1)
    ensures forall i :: OccursAt(needle, hay, i) && i > 0 ==> OccursAt(needle, hay[1..], i - 1)
  {
    forall i | OccursAt(needle, hay[1..], i)
      ensures OccursAt(needle, hay, i + 1)
    {
      assert hay[1..][i..i + |needle|] == hay[i + 1..i + 1 + |needle|];
    }
    forall i | OccursAt(needle, hay, i) && i > 0
      ensures OccursAt(needle, hay[1..], i - 1)
    {
      assert hay[1..][i - 1..i - 1 + |needle|] == hay[i..i + |needle|];
    }
  }

  /** `hay.includes(needle)`: a left-to-right scan for the first match. */
  function Contains(hay: string, needle: string): (r: bool)
    ensures r <==> exists i :: OccursAt(needle, hay, i)
    decreases |hay|
  {
    if |needle| > |hay| then
      false
    else if hay[..|needle|] == needle then
      assert OccursAt(needle, hay, 0);
      true
    else
      OccursShift(needle, hay);
      assert !OccursAt(needle, hay, 0);
      Contains(hay[1..], needle)
  }

  /** An occurrence starts with the needle's first character. */
  lemma OccurrenceHead(needle: string, hay: string)
    requires |needle| > 0
    ensures forall i :: OccursAt(needle, hay, i) ==> hay[i] == needle[0]
  {
    forall i | OccursAt(needle, hay, i) ensures hay[i] == needle[0] {
      assert hay[i..i + |needle|][0] == hay[i];
    }
  }

  /** A needle whose first character never appears in `hay` does not occur in it. */
  lemma FirstCharAbsent(hay: string, needle: string)
    requires |needle| > 0 && forall i :: 0 <= i < |hay| ==> hay[i] != needle[0]
    ensures !Contains(hay, needle)
  {
    OccurrenceHead(needle, hay);
  }

  // ------------------------------------------------------------- indexing

  /** The position of the first `c` in `s`, if any. */
  function FirstIndexOf(s: string, c: char): (r: Option<nat>)
    ensures r.Some? ==> r.value < |s| && s[r.value] == c
    ensures r.Some? ==> forall j :: 0 <= j < r.value ==> s[j] != c
    ensures r.None? ==> forall j :: 0 <= j < |s| ==> s[j] != c
  {
    if s == [] then None
    else if s[0] == c then Some(0)
    else match FirstIndexOf(s[1..], c)
      case None => None
      case Some(i) => Some(i + 1)
  }

  /** The position of the last `c` in `s`, if any. */
  function LastIndexOf(s: string, c: char): (r: Option<nat>)
    ensures r.Some? ==> r.value < |s| && s[r.value] == c
    ensures r.Some? ==> forall j :: r.value < j < |s| ==> s[j] != c
    ensures r.None? ==> forall j :: 0 <= j < |s| ==> s[j] != c
  {
    if s == [] then None
    else if s[|s| - 1] == c then Some(|s| - 1)
    else LastIndexOf(s[..|s| - 1], c)
  }

  // ---------------------------------------------------------- case folding

  /** ASCII lower-casing of one character; every other character is kept. */
  function LowerChar(c: char): char
  {
    if 'A' <= c <= 'Z' then (c as int + 32) as char else c
  }

  /** `s.toLowerCase()`, restricted to ASCII letters. */
  function ToLower(s: string): (r: string)
    ensures |r| == |s|
    ensures forall i :: 0 <= i < |s| ==> r[i] == LowerChar(s[i])
  {
    seq(|s|, i requires 0 <= i < |s| => LowerChar(s[i]))
  }

  lemma ToLowerIdempotent(s: string)
    ensures ToLower(ToLower(s)) == ToLower(s)
  {
  }

  // ---------------------------------------------------------------- length

  /** JavaScript's `length`: characters above U+FFFF take two UTF-16 code units. */
  function Utf16Length(s: string): (n: nat)
    ensures |s| <= n <= 2 * |s|
  {
    if s == [] then 0 else (if s[0] as int > 0xFFFF then 2 else 1) + Utf16Length(s[1..])
  }

  // ------------------------------------------------------------ whitespace

  /** Python's `str.isspace()` for one character. */
  predicate IsPyWhitespace(c: char)
  {
    ('\U{9}' <= c <= '\U{D}') || ('\U{1C}' <= c <= '\U{20}') || c == '\U{85}' || c == '\U{A0}'
    || c == '\U{1680}' || ('\U{2000}' <= c <= '\U{200A}') || c == '\U{2028}' || c == '\U{2029}'
    || c == '\U{202F}' || c == '\U{205F}' || c == '\U{3000}'
  }

  function StripStart(s: string): (r: string)
    ensures |r| <= |s| && r == s[|s| - |r|..]
    ensures r == [] || !IsPyWhitespace(r[0])
    ensures forall i :: 0 <= i < |s| - |r| ==> IsPyWhitespace(s[i])
  {
    if s != [] && IsPyWhitespace(s[0]) then StripStart(s[1..]) else s
  }

  function StripEnd(s: string): (r: string)
    ensures |r| <= |s| && r == s[..|r|]
    ensures r == [] || !IsPyWhitespace(r[|r| - 1])
    ensures forall i :: |r| <= i < |s| ==> IsPyWhitespace(s[i])
  {
    if s != [] && IsPyWhitespace(s[|s| - 1]) then StripEnd(s[..|s| - 1]) else s
  }

  /** Python's `s.strip()`: the longest infix with no whitespace at either end. */
  function Strip(s: string): (r: string)
    ensures |r| <= |s|
    ensures r == [] || (!IsPyWhitespace(r[0]) && !IsPyWhitespace(r[|r| - 1]))
    ensures (forall i :: 0 <= i < |s| ==> !IsPyWhitespace(s[i])) ==> r == s
  {
    StripEnd(StripStart(s))
  }

  /** Leading whitespace is dropped by `StripStart` one character at a time. */
  lemma {:induction false} StripStartDropsWhitespace(p: string, w: string)
    requires forall i :: 0 <= i < |p| ==> IsPyWhitespace(p[i])
    ensures StripStart(p + w) == StripStart(w)
  {
    if p == [] {
      assert p + w == w;
    } else {
      assert (p + w)[0] == p[0];
      assert (p + w)[1..] == p[1..] + w;
      StripStartDropsWhitespace(p[1..], w);
    }
  }

  /** A whitespace-free word after leading whitespace strips to the word. */
  lemma StripLeadingWhitespace(p: string, w: string)
    requires forall i :: 0 <= i < |p| ==> IsPyWhitespace(p[i])
    requires forall i :: 0 <= i < |w| ==> !IsPyWhitespace(w[i])
    ensures Strip(p + w) == w
  {
    StripStartDropsWhitespace(p, w);
  }

  // --------------------------------------------------------------- decimal

  predicate IsDigit(c: char)
  {
    '0' <= c <= '9'
  }

  predicate AllDigits(s: string)
  {
    forall i :: 0 <= i < |s| ==> IsDigit(s[i])
  }

  function DigitChar(d: nat): (c: char)
    requires d < 10
    ensures IsDigit(c)
  {
    ('0' as int + d) as char
  }

  function DigitValue(c: char): (d: nat)
    requires IsDigit(c)
    ensures d < 10 && DigitChar(d) == c
  {
    c as int - '0' as int
  }

  /** The decimal digits of `n`, most significant first, without leading zeros. */
  function NatToString(n: nat): (r: string)
    ensures |r| > 0 && AllDigits(r)
    decreases n
  {
    if n < 10 then [DigitChar(n)] else NatToString(n / 10) + [DigitChar(n % 10)]
  }

  /** The number a non-empty string of digits denotes. */
  function DigitsValue(s: string): nat
    requires AllDigits(s)
  {
    if s == [] then 0 else DigitsValue(s[..|s| - 1]) * 10 + DigitValue(s[|s| - 1])
  }

  /** JavaScript `String(n)` and Python `str(n)` for an integer. */
  function IntToString(n: int): (r: string)
    ensures |r| > 0
    ensures forall i :: 0 <= i < |r| ==> IsDigit(r[i]) || (i == 0 && r[i] == '-')
  {
    if n < 0 then "-" + NatToString(-n) else NatToString(n)
  }

  /**
   * Python `int(s)` on an optionally signed run of decimal digits; `None` is
   * the `ValueError` it raises on anything else.
   */
  function ParseInt(s: string): (r: Option<int>)
    ensures r.Some? ==> |s| > 0
  {
    if |s| > 0 && (s[0] == '-' || s[0] == '+') then
      if |s| > 1 && AllDigits(s[1..]) then
        var v: int := DigitsValue(s[1..]);
        Some(if s[0] == '-' then -v else v)
      else None
    else if |s| > 0 && AllDigits(s) then Some(DigitsValue(s))
    else None
  }

  /** Python `int(s)` on text: surrounding whitespace is ignored. */
  function PyInt(s: string): Option<int>
  {
    ParseInt(Strip(s))
  }

  lemma {:induction false} NatToStringRoundTrip(n: nat)
    ensures DigitsValue(NatToString(n)) == n
    decreases n
  {
    var s := NatToString(n);
    if n < 10 {
      assert s[..0] == [];
    } else {
      NatToStringRoundTrip(n / 10);
      assert s[..|s| - 1] == NatToString(n / 10);
    }
  }

  /** Decimal text round-trips: `int(str(n)) == n`. */
  lemma IntToStringRoundTrip(n: int)
    ensures ParseInt(IntToString(n)) == Some(n)
  {
    var t := IntToString(n);
    if n < 0 {
      NatToStringRoundTrip(-n);
      assert t[0] == '-' && t[1..] == NatToString(-n);
    } else {
      NatToStringRoundTrip(n);
      assert t == NatToString(n) && IsDigit(t[0]);
    }
  }

  /** `int(str(n)) == n` in Python, whitespace stripping included. */
  lemma PyIntRoundTrip(n: int)
    ensures PyInt(IntToString(n)) == Some(n)
  {
    var t := IntToString(n);
    assert forall i :: 0 <= i < |t| ==> !IsPyWhitespace(t[i]);
    IntToStringRoundTrip(n);
  }

  /** Distinct integers print differently. */
  lemma IntToStringInjective(a: int, b: int)
    requires IntToString(a) == IntToString(b)
    ensures a == b
  {
    IntToStringRoundTrip(a);
    IntToStringRoundTrip(b);
  }
}
