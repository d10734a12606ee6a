/** The two escaping schemes of the render engine.

    - A raw string at a child position goes through Python's `unicode_escape` codec
      (`lark_dynamic/token.py:33`): `UnicodeEscape`, with the decoder `Unescape` as its inverse.
      The codec leaves `"` alone.
    - A `Literal` only puts a backslash before each `"` (`lark_dynamic/atoms.py:16`):
      `EscapeQuotes`, with `UnescapeQuotes` as its inverse.
 */
module Escapes {
  import opened Wrappers
  import opened PyText

  predicate IsPrintableAscii(c: char) {
    0x20 <= c as int < 0x7f
  }

  /** A Unicode scalar value, the range of Dafny's `char`. */
  predicate IsScalar(n: int) {
    0 <= n < 0xD800 || 0xE000 <= n < 0x11_0000
  }

  /** One code point under `unicode_escape`: printable ASCII is kept (a backslash doubled),
      tab, LF and CR get their letter escapes, the rest of Latin-1 becomes `\xhh`, the rest of
      the basic plane `\uhhhh`, and everything above it `\Uhhhhhhhh`. */
  function EscapeChar(c: char): (e: string)
    ensures |e| >= 1
    ensures forall i :: 0 <= i < |e| ==> IsPrintableAscii(e[i])
  {
    var n := c as int;
    if n < 0x100 then
      if 0x20 <= n < 0x7f then
        (if c == '\\' then "\\\\" else [c])
      else if c == '\t' then "\\t"
      else if c == '\n' then "\\n"
      else if c == '\r' then "\\r"
      else "\\x" + Hex(n, 2)
    else if n >= 0x1_0000 then "\\U" + Hex(n, 8)
    else "\\u" + Hex(n, 4)
  }

  /** `s.encode("unicode_escape")`, decoded back as UTF-8: always printable ASCII. */
  function UnicodeEscape(s: string): (e: string)
    ensures forall i :: 0 <= i < |e| ==> IsPrintableAscii(e[i])
  {
    if s == [] then "" else EscapeChar(s[0]) + UnicodeEscape(s[1..])
  }

  function DecodeHex(t: string, width: nat): (r: Opt<(char, nat)>)
    requires |t| >= 2
    ensures r.Just? ==> r.value.1 == 2 + width <= |t|
  {
    if |t| < 2 + width || !AllHexDigits(t[2..2 + width]) then Nothing
    else
      var n := ParseHex(t[2..2 + width]);
      if IsScalar(n) then Just((n as char, 2 + width)) else Nothing
  }

  /** Decodes the escape form at the start of `t`: the character and how many were consumed. */
  function DecodeOne(t: string): (r: Opt<(char, nat)>)
    requires |t| > 0
    ensures r.Just? ==> 1 <= r.value.1 <= |t|
  {
    if t[0] != '\\' then Just((t[0], 1))
    else if |t| < 2 then Nothing
    else if t[1] == '\\' then Just(('\\', 2))
    else if t[1] == 't' then Just(('\t', 2))
    else if t[1] == 'n' then Just(('\n', 2))
    else if t[1] == 'r' then Just(('\r', 2))
    else if t[1] == 'x' then DecodeHex(t, 2)
    else if t[1] == 'u' then DecodeHex(t, 4)
    else if t[1] == 'U' then DecodeHex(t, 8)
    else Nothing
  }

  /** Decoder for the forms `EscapeChar` produces; `Nothing` on a malformed escape. */
  function Unescape(t: string): Opt<string>
    decreases |t|
  {
    if t == [] then Just("")
    else
      match DecodeOne(t)
      case Nothing => Nothing
      case Just((c, k)) =>
        match Unescape(t[k..])
        case Nothing => Nothing
        case Just(rest) => Just([c] + rest)
  }

  lemma DecodeHexOf(c: char, width: nat, tag: char, rest: string)
    requires c as int < Pow16(width)
    ensures var t := ['\\', tag] + Hex(c as int, width) + rest;
            DecodeHex(t, width) == Just((c, 2 + width))
  {
    var t := ['\\', tag] + Hex(c as int, width) + rest;
    assert t[2..2 + width] == Hex(c as int, width);
    HexRoundTrip(c as int, width);
  }

  /** Decoding the escape of `c` gives `c` back and consumes exactly that escape. */
  lemma DecodeEscapeChar(c: char, rest: string)
    ensures DecodeOne(EscapeChar(c) + rest) == Just((c, |EscapeChar(c)|))
  {
    var n := c as int;
    if n < 0x100 {
      if !(0x20 <= n < 0x7f) && c != '\t' && c != '\n' && c != '\r' {
        assert Pow16(2) == 0x100;
        DecodeHexOf(c, 2, 'x', rest);
        assert EscapeChar(c) + rest == ['\\', 'x'] + Hex(n, 2) + rest;
      }
    } else if n >= 0x1_0000 {
      assert Pow16(8) == 0x1_0000_0000;
      DecodeHexOf(c, 8, 'U', rest);
      assert EscapeChar(c) + rest == ['\\', 'U'] + Hex(n, 8) + rest;
    } else {
      assert Pow16(4) == 0x1_0000;
      DecodeHexOf(c, 4, 'u', rest);
      assert EscapeChar(c) + rest == ['\\', 'u'] + Hex(n, 4) + rest;
    }
  }

  /** `unicode_escape` loses nothing: decoding its output returns the original string. */
  lemma {:induction false} UnescapeRoundTrip(s: string)
    ensures Unescape(UnicodeEscape(s)) == Just(s)
  {
    if s != [] {
      var e := EscapeChar(s[0]);
      var tail := UnicodeEscape(s[1..]);
      var t := UnicodeEscape(s);
      assert t == e + tail;
      DecodeEscapeChar(s[0], tail);
      assert t[|e|..] == tail;
      UnescapeRoundTrip(s[1..]);
      assert [s[0]] + s[1..] == s;
    }
  }

  /** Printable ASCII other than the backslash escapes to itself; the backslash is doubled. */
  lemma EscapeCharPrintable()
    ensures forall c :: IsPrintableAscii(c) && c != '\\' ==> EscapeChar(c) == [c]
    ensures EscapeChar('\\') == "\\\\"
  {
  }

  /** The codec works character by character: it distributes over concatenation. */
  lemma {:induction false} UnicodeEscapeAppend(a: string, b: string)
    ensures UnicodeEscape(a + b) == UnicodeEscape(a) + UnicodeEscape(b)
    decreases |a|
  {
    if a == [] {
      assert a + b == b;
    } else {
      assert (a + b)[0] == a[0] && (a + b)[1..] == a[1..] + b;
      UnicodeEscapeAppend(a[1..], b);
    }
  }

  /** Printable ASCII without a backslash is copied unchanged. */
  lemma {:induction false} UnicodeEscapeIdentity(s: string)
    requires forall i :: 0 <= i < |s| ==> IsPrintableAscii(s[i]) && s[i] != '\\'
    ensures UnicodeEscape(s) == s
    decreases |s|
  {
    if s != [] {
      EscapeCharPrintable();
      UnicodeEscapeIdentity(s[1..]);
      assert [s[0]] + s[1..] == s;
    }
  }

  /** The raw-string path copies every `"` unescaped, whatever surrounds it. */
  lemma UnicodeEscapeKeepsQuotes(a: string, b: string)
    ensures UnicodeEscape(a + "\"" + b) == UnicodeEscape(a) + "\"" + UnicodeEscape(b)
  {
    UnicodeEscapeAppend(a + "\"", b);
    UnicodeEscapeAppend(a, "\"");
    assert UnicodeEscape("\"") == "\"";
  }

  /** `string.replace('"', '\\"')`: a backslash before every quote, nothing else changed. */
  function EscapeQuotes(s: string): (e: string)
    ensures forall i :: 0 <= i < |e| && e[i] == '"' ==> 0 < i && e[i - 1] == '\\'
    ensures |e| > 0 ==> e[0] != '"'
  {
    if s == [] then ""
    else (if s[0] == '"' then "\\\"" else [s[0]]) + EscapeQuotes(s[1..])
  }

  /** Drops the backslash in front of every `\"`. */
  function UnescapeQuotes(t: string): string {
    if |t| >= 2 && t[0] == '\\' && t[1] == '"' then "\"" + UnescapeQuotes(t[2..])
    else if t == [] then ""
    else [t[0]] + UnescapeQuotes(t[1..])
  }

  lemma {:induction false} QuotesRoundTrip(s: string)
    ensures UnescapeQuotes(EscapeQuotes(s)) == s
  {
    if s != [] {
      var tail := EscapeQuotes(s[1..]);
      QuotesRoundTrip(s[1..]);
      if s[0] == '"' {
        assert EscapeQuotes(s) == "\\\"" + tail;
        assert (EscapeQuotes(s))[2..] == tail;
      } else {
        assert EscapeQuotes(s) == [s[0]] + tail;
        assert (EscapeQuotes(s))[1..] == tail;
      }
      assert [s[0]] + s[1..] == s;
    }
  }

  /** Without a quote in it, a string is copied as is: backslashes and non-ASCII included. */
  lemma {:induction false} EscapeQuotesIdentity(s: string)
    requires '"' !in s
    ensures EscapeQuotes(s) == s
  {
    if s != [] {
      EscapeQuotesIdentity(s[1..]);
      assert [s[0]] + s[1..] == s;
    }
  }
}
