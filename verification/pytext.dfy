/** The Python string built-ins the library relies on, written out:
    `str(int)` (decimal rendering, with a round-trip parser as its partner), the fixed-width
    lower-case hex digits used by the `unicode_escape` codec, `str.strip()` with Python's
    whitespace set, and `str.islower` / `str.isupper` / `str.isidentifier` restricted to ASCII.
 */
module PyText {
  import opened Wrappers

  // ---------------------------------------------------------------- characters

  predicate IsAsciiDigit(c: char) { '0' <= c <= '9' }
  predicate IsAsciiLower(c: char) { 'a' <= c <= 'z' }
  predicate IsAsciiUpper(c: char) { 'A' <= c <= 'Z' }
  predicate IsAsciiLetter(c: char) { IsAsciiLower(c) || IsAsciiUpper(c) }

  predicate AllDigits(s: string) {
    forall i :: 0 <= i < |s| ==> IsAsciiDigit(s[i])
  }

  /** `str.isidentifier()` on ASCII: a letter or `_` first, then letters, digits and `_`. */
  predicate IsIdentifier(s: string) {
    && |s| > 0
    && (IsAsciiLetter(s[0]) || s[0] == '_')
    && forall i :: 0 <= i < |s| ==> IsAsciiLetter(s[i]) || IsAsciiDigit(s[i]) || s[i] == '_'
  }

  /** `str.islower()`: at least one cased character and no upper-case one. */
  predicate IsLower(s: string) {
    && (exists i :: 0 <= i < |s| && IsAsciiLetter(s[i]))
    && forall i :: 0 <= i < |s| ==> !IsAsciiUpper(s[i])
  }

  /** `str.isupper()`: at least one cased character and no lower-case one. */
  predicate IsUpper(s: string) {
    && (exists i :: 0 <= i < |s| && IsAsciiLetter(s[i]))
    && forall i :: 0 <= i < |s| ==> !IsAsciiLower(s[i])
  }

  // ---------------------------------------------------------------- str(int)

  function DigitChar(d: nat): (c: char)
    requires d < 10
    ensures IsAsciiDigit(c)
  {
    ('0' as int + d) as char
  }

  function DigitValue(c: char): (d: nat)
    requires IsAsciiDigit(c)
    ensures d < 10 && DigitChar(d) == c
  {
    c as int - '0' as int
  }

  /** Decimal digits of `n`, most significant first, without leading zeros. */
  function NatToDecimal(n: nat): (s: string)
    ensures |s| >= 1 && AllDigits(s)
    ensures (s[0] == '0') <==> (n == 0)
    decreases n
  {
    if n < 10 then [DigitChar(n)] else NatToDecimal(n / 10) + [DigitChar(n % 10)]
  }

  /** Python's `str(i)` for an `int`. */
  function IntToStr(i: int): string {
    if i < 0 then "-" + NatToDecimal(-i) else NatToDecimal(i)
  }

  function ParseDecimal(s: string): nat
    requires AllDigits(s)
  {
    if s == [] then 0 else 10 * ParseDecimal(s[..|s| - 1]) + DigitValue(s[|s| - 1])
  }

  /** Reads back an optionally negative decimal numeral. */
  function ParseInt(s: string): Opt<int> {
    if |s| > 1 && s[0] == '-' && AllDigits(s[1..]) then Just(0 - ParseDecimal(s[1..]) as int)
    else if |s| > 0 && AllDigits(s) then Just(ParseDecimal(s))
    else Nothing
  }

  lemma {:induction false} DecimalRoundTrip(n: nat)
    ensures ParseDecimal(NatToDecimal(n)) == n
    decreases n
  {
    if n >= 10 {
      var s := NatToDecimal(n);
      assert s[..|s| - 1] == NatToDecimal(n / 10);
      DecimalRoundTrip(n / 10);
    }
  }

  /** `str(i)` can always be read back: it determines `i`. */
  lemma IntToStrRoundTrip(i: int)
    ensures ParseInt(IntToStr(i)) == Just(i)
  {
    if i < 0 {
      var d := NatToDecimal(-i);
      DecimalRoundTrip(-i);
      var s := "-" + d;
      assert s[0] == '-' && s[1..] == d;
      assert ParseInt(s) == Just(0 - ParseDecimal(d) as int);
    } else {
      var d := NatToDecimal(i);
      DecimalRoundTrip(i);
      assert IsAsciiDigit(d[0]);
      assert ParseInt(d) == Just(ParseDecimal(d));
    }
  }

  // ---------------------------------------------------------------- hex digits

  predicate IsHexDigit(c: char) {
    IsAsciiDigit(c) || 'a' <= c <= 'f' || 'A' <= c <= 'F'
  }

  predicate AllHexDigits(s: string) {
    forall i :: 0 <= i < |s| ==> IsHexDigit(s[i])
  }

  /** Lower-case hex digit, as in CPython's `Py_hexdigits`. */
  function HexChar(d: nat): (c: char)
    requires d < 16
    ensures IsHexDigit(c)
  {
    if d < 10 then ('0' as int + d) as char else ('a' as int + d - 10) as char
  }

  function HexValue(c: char): (d: nat)
    requires IsHexDigit(c)
    ensures d < 16
  {
    if IsAsciiDigit(c) then c as int - '0' as int
    else if 'a' <= c <= 'f' then c as int - 'a' as int + 10
    else c as int - 'A' as int + 10
  }

  function Pow16(w: nat): (p: nat)
    ensures p >= 1
  {
    if w == 0 then 1 else 16 * Pow16(w - 1)
  }

  /** The last `width` hex digits of `n`, zero-padded, lower case. */
  function Hex(n: nat, width: nat): (s: string)
    ensures |s| == width && AllHexDigits(s)
  {
    if width == 0 then "" else Hex(n / 16, width - 1) + [HexChar(n % 16)]
  }

  function ParseHex(s: string): nat
    requires AllHexDigits(s)
  {
    if s == [] then 0 else 16 * ParseHex(s[..|s| - 1]) + HexValue(s[|s| - 1])
  }

  lemma {:induction false} HexRoundTrip(n: nat, width: nat)
    requires n < Pow16(width)
    ensures ParseHex(Hex(n, width)) == n
    decreases width
  {
    if width > 0 {
      var s := Hex(n, width);
      assert s[..|s| - 1] == Hex(n / 16, width - 1);
      assert n / 16 < Pow16(width - 1);
      HexRoundTrip(n / 16, width - 1);
      assert HexValue(HexChar(n % 16)) == n % 16;
    }
  }

  // ---------------------------------------------------------------- str.strip()

  /** `str.isspace()` for one character: Python's whitespace set. */
  predicate IsSpace(c: char) {
    var n := c as int;
    || 0x09 <= n <= 0x0d
    || 0x1c <= n <= 0x20
    || n == 0x85 || n == 0xa0 || n == 0x1680
    || 0x2000 <= n <= 0x200a
    || n == 0x2028 || n == 0x2029 || n == 0x202f || n == 0x205f || n == 0x3000
  }

  predicate AllSpace(s: string) {
    forall i :: 0 <= i < |s| ==> IsSpace(s[i])
  }

  /** `s.lstrip()`: the suffix left after dropping leading whitespace. */
  function StripLeading(s: string): (r: string)
    ensures |r| <= |s| && r == s[|s| - |r|..]
    ensures AllSpace(s[..|s| - |r|])
    ensures r != [] ==> !IsSpace(r[0])
    decreases |s|
  {
    if s != [] && IsSpace(s[0]) then StripLeading(s[1..]) else s
  }

  /** `s.rstrip()`: the prefix left after dropping trailing whitespace. */
  function StripTrailing(s: string): (r: string)
    ensures |r| <= |s| && r == s[..|r|]
    ensures AllSpace(s[|r|..])
    ensures r != [] ==> !IsSpace(r[|r| - 1])
    decreases |s|
  {
    if s != [] && IsSpace(s[|s| - 1]) then
      var r := StripTrailing(s[..|s| - 1]);
      assert s[|r|..] == s[..|s| - 1][|r|..] + [s[|s| - 1]];
      r
    else
      s
  }

  /** `s.strip()`: both `lstrip` and `rstrip`; what is left has no whitespace at either end. */
  function Strip(s: string): (r: string)
    ensures |r| <= |s|
    ensures r != [] ==> !IsSpace(r[0]) && !IsSpace(r[|r| - 1])
  {
    var l := StripLeading(s);
    var r := StripTrailing(l);
    StripEnds(l, r);
    r
  }

  /** Stripping the end of a text with no leading whitespace leaves none at either end. */
  lemma StripEnds(l: string, r: string)
    requires l != [] ==> !IsSpace(l[0])
    requires r == StripTrailing(l)
    ensures r != [] ==> !IsSpace(r[0]) && !IsSpace(r[|r| - 1])
  {
    if r != [] {
      assert r[0] == l[0];
    }
  }

  /** `strip` removes whitespace only: the result is a slice of `s` with nothing but whitespace
      before and after it. */
  lemma StripIsSlice(s: string)
    ensures var r := Strip(s);
            exists lead :: 0 <= lead <= |s| - |r| && r == s[lead..lead + |r|]
                           && AllSpace(s[..lead]) && AllSpace(s[lead + |r|..])
  {
    var l := StripLeading(s);
    var lead := |s| - |l|;
    StripSlices(s, l, Strip(s), lead);
  }

  /** Whitespace before `l` in `s` and after `r` in `l`: `r` sits in `s` with whitespace on
      both sides. */
  lemma StripSlices(s: string, l: string, r: string, lead: nat)
    requires lead <= |s| && l == s[lead..] && AllSpace(s[..lead])
    requires |r| <= |l| && r == l[..|r|] && AllSpace(l[|r|..])
    ensures lead <= |s| - |r| && r == s[lead..lead + |r|]
    ensures AllSpace(s[..lead]) && AllSpace(s[lead + |r|..])
  {
    assert s[lead + |r|..] == l[|r|..];
  }

  /** Stripping whitespace padding gives back the padded text, when that text is non-empty and
      neither starts nor ends with whitespace. */
  lemma StripPadding(a: string, text: string, b: string)
    requires AllSpace(a) && AllSpace(b)
    requires text != [] && !IsSpace(text[0]) && !IsSpace(text[|text| - 1])
    ensures Strip(a + text + b) == text
  {
    StripLeadingPadding(a, text + b);
    assert a + text + b == a + (text + b);
    StripTrailingPadding(text, b);
  }

  lemma {:induction false} StripLeadingPadding(a: string, rest: string)
    requires AllSpace(a) && rest != [] && !IsSpace(rest[0])
    ensures StripLeading(a + rest) == rest
    decreases |a|
  {
    var s := a + rest;
    if a == [] {
      assert s == rest;
    } else {
      assert s != [] && s[0] == a[0] && IsSpace(a[0]);
      assert StripLeading(s) == StripLeading(s[1..]);
      var a' := a[1..];
      assert AllSpace(a') by {
        forall i | 0 <= i < |a'| ensures IsSpace(a'[i]) {
          assert a'[i] == a[i + 1];
        }
      }
      assert s[1..] == a' + rest;
      StripLeadingPadding(a', rest);
    }
  }

  lemma {:induction false} StripTrailingPadding(text: string, b: string)
    requires AllSpace(b) && text != [] && !IsSpace(text[|text| - 1])
    ensures StripTrailing(text + b) == text
    decreases |b|
  {
    var s := text + b;
    if b == [] {
      assert s == text;
    } else {
      assert s != [] && s[|s| - 1] == b[|b| - 1] && IsSpace(b[|b| - 1]);
      assert StripTrailing(s) == StripTrailing(s[..|s| - 1]);
      var b' := b[..|b| - 1];
      assert AllSpace(b') by {
        forall i | 0 <= i < |b'| ensures IsSpace(b'[i]) {
          assert b'[i] == b[i];
        }
      }
      assert s[..|s| - 1] == text + b';
      StripTrailingPadding(text, b');
    }
  }

  /** `lstrip` passes over one leading whitespace character. */
  lemma StripLeadingSpace(c: char, rest: string)
    requires IsSpace(c)
    ensures StripLeading([c] + rest) == StripLeading(rest)
  {
    assert ([c] + rest)[1..] == rest;
  }

  /** `rstrip` passes over one trailing whitespace character. */
  lemma StripTrailingSpace(rest: string, c: char)
    requires IsSpace(c)
    ensures StripTrailing(rest + [c]) == StripTrailing(rest)
  {
    assert (rest + [c])[..|rest|] == rest;
  }

  /** A string of whitespace strips to nothing. */
  lemma StripAllSpace(s: string)
    requires AllSpace(s)
    ensures Strip(s) == ""
  {
  }
}
