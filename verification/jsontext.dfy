/**
 * JSON string literals as Python's `json.dumps` writes them with its default `ensure_ascii`
 * (RFC 8259 section 7): `"` and `\` are escaped, backspace, form feed, newline, carriage
 * return and tab get their two-character escapes, every other character outside the
 * printable ASCII range `' '..'~'` becomes `\u` and four lower-case hex digits, and a
 * character above U+FFFF becomes a UTF-16 surrogate pair of such escapes.
 *
 * A reader for the same literals is the partner: reading back what was written gives the
 * original string and leaves whatever followed it untouched.
 */
module JsonText {
  import opened Common
  import opened PyStr

  function LowerHexDigit(n: nat): (c: char)
    requires n < 16
  {
    if n < 10 then ('0' as int + n) as char else ('a' as int + n - 10) as char
  }

  predicate IsHexDigit(c: char) {
    ('0' <= c <= '9') || ('A' <= c <= 'F') || ('a' <= c <= 'f')
  }

  function HexDigitValue(c: char): (n: nat)
    requires IsHexDigit(c)
    ensures n < 16
  {
    if '0' <= c <= '9' then c as int - '0' as int
    else if 'A' <= c <= 'F' then c as int - 'A' as int + 10
    else c as int - 'a' as int + 10
  }

  /** `\uXXXX` for a UTF-16 code unit, in lower-case hex. */
  function UnicodeEscape(n: nat): (e: string)
    requires n < 0x10000
    ensures |e| == 6
  {
    ['\\', 'u', LowerHexDigit(n / 16 / 16 / 16), LowerHexDigit(n / 16 / 16 % 16),
     LowerHexDigit(n / 16 % 16), LowerHexDigit(n % 16)]
  }

  /** How one character is written inside a JSON string literal. */
  function EscapeChar(c: char): (e: string)
    ensures 1 <= |e| <= 12
  {
    var x := c as int;
    if c == '"' then "\\\""
    else if c == '\\' then "\\\\"
    else if c == '\n' then "\\n"
    else if c == '\r' then "\\r"
    else if c == '\t' then "\\t"
    else if x == 0x08 then "\\b"
    else if x == 0x0C then "\\f"
    else if 0x20 <= x <= 0x7E then [c]
    else if x < 0x10000 then UnicodeEscape(x)
    else SurrogateEscape(x)
  }

  /** A code point above U+FFFF as the escapes of its UTF-16 high and low surrogates. */
  function SurrogateEscape(x: nat): (e: string)
    requires 0x10000 <= x < 0x110000
    ensures |e| == 12
  {
    var n := x - 0x10000;
    UnicodeEscape(0xD800 + n / 1024) + UnicodeEscape(0xDC00 + n % 1024)
  }

  function EscapeAll(s: string): string {
    if s == [] then [] else EscapeChar(s[0]) + EscapeAll(s[1..])
  }

  /** `json.dumps(s)` for a string s. */
  function Quoted(s: string): string {
    "\"" + EscapeAll(s) + "\""
  }

  /** Printable ASCII: what `ensure_ascii` output is made of. */
  predicate IsPrintableAscii(c: char) { ' ' <= c <= '~' }

  lemma UnicodeEscapePrintable(n: nat)
    requires n < 0x10000
    ensures forall i :: 0 <= i < 6 ==> IsPrintableAscii(UnicodeEscape(n)[i])
  {
  }

  lemma EscapeCharPrintable(c: char)
    ensures forall i :: 0 <= i < |EscapeChar(c)| ==> IsPrintableAscii(EscapeChar(c)[i])
  {
    var x := c as int;
    if x >= 0x10000 {
      var n := x - 0x10000;
      SurrogateHalves(x);
      UnicodeEscapePrintable(0xD800 + n / 1024);
      UnicodeEscapePrintable(0xDC00 + n % 1024);
      assert EscapeChar(c) == SurrogateEscape(x);
    } else if !(0x20 <= x <= 0x7E) && !(c == '\n' || c == '\r' || c == '\t' || x == 0x08 || x == 0x0C) {
      UnicodeEscapePrintable(x);
    }
  }

  /** A quoted string holds only printable ASCII, so in particular no line break. */
  lemma {:induction false} QuotedPrintable(s: string)
    ensures forall i :: 0 <= i < |Quoted(s)| ==> IsPrintableAscii(Quoted(s)[i])
  {
    EscapeAllPrintable(s);
  }

  lemma {:induction false} EscapeAllPrintable(s: string)
    ensures forall i :: 0 <= i < |EscapeAll(s)| ==> IsPrintableAscii(EscapeAll(s)[i])
  {
    if s != [] {
      EscapeCharPrintable(s[0]);
      EscapeAllPrintable(s[1..]);
      assert EscapeAll(s) == EscapeChar(s[0]) + EscapeAll(s[1..]);
    }
  }

  // ---- The reader ----

  /** Four hex digits at the front of t, as a number. */
  function ReadHex4(t: string): (r: Option<nat>)
    ensures r.Some? ==> |t| >= 4 && r.value < 0x10000
  {
    if |t| >= 4 && IsHexDigit(t[0]) && IsHexDigit(t[1]) && IsHexDigit(t[2]) && IsHexDigit(t[3]) then
      Some(HexDigitValue(t[0]) * 4096 + HexDigitValue(t[1]) * 256 + HexDigitValue(t[2]) * 16 + HexDigitValue(t[3]))
    else None
  }

  /** Reads the escape that follows a backslash; gives the character and what is left. */
  function ReadEscape(t: string): (r: Option<(char, string)>)
    ensures r.Some? ==> |r.value.1| < |t|
  {
    if t == [] then None
    else if t[0] == '"' || t[0] == '\\' || t[0] == '/' then Some((t[0], t[1..]))
    else if t[0] == 'b' then Some((0x08 as char, t[1..]))
    else if t[0] == 'f' then Some((0x0C as char, t[1..]))
    else if t[0] == 'n' then Some(('\n', t[1..]))
    else if t[0] == 'r' then Some(('\r', t[1..]))
    else if t[0] == 't' then Some(('\t', t[1..]))
    else if t[0] == 'u' then
      match ReadHex4(t[1..])
      case None => None
      case Some(v) =>
        if 0xD800 <= v < 0xDC00 then
          if |t| >= 7 && t[5] == '\\' && t[6] == 'u' then
            match ReadHex4(t[7..])
            case Some(w) =>
              if 0xDC00 <= w < 0xE000 then Some(((0x10000 + (v - 0xD800) * 1024 + (w - 0xDC00)) as char, t[11..]))
              else None
            case None => None
          else None
        else if 0xDC00 <= v < 0xE000 then None
        else Some((v as char, t[5..]))
    else None
  }

  /** Reads one character of a literal's inside, escaped or not. */
  function ReadOne(t: string): (r: Option<(char, string)>)
    requires t != []
    ensures r.Some? ==> |r.value.1| < |t|
  {
    if t[0] == '\\' then ReadEscape(t[1..]) else Some((t[0], t[1..]))
  }

  /** Reads the inside of a literal up to its closing quote; gives the string and what follows the quote. */
  function ReadChars(t: string): (r: Option<(string, string)>)
    decreases |t|
  {
    if t == [] then None
    else if t[0] == '"' then Some(([], t[1..]))
    else
      match ReadOne(t)
      case None => None
      case Some((c, rest)) =>
        match ReadChars(rest)
        case None => None
        case Some((s, after)) => Some(([c] + s, after))
  }

  /** Reads one JSON string literal at the front of t. */
  function ReadString(t: string): Option<(string, string)> {
    if t != [] && t[0] == '"' then ReadChars(t[1..]) else None
  }

  lemma HexDigitRoundTrip(d: nat)
    requires d < 16
    ensures IsHexDigit(LowerHexDigit(d)) && HexDigitValue(LowerHexDigit(d)) == d
  {
  }

  lemma Hex4Digits(n: nat)
    requires n < 0x10000
    ensures n / 16 / 16 / 16 < 16
    ensures n == (n / 16 / 16 / 16) * 4096 + (n / 16 / 16 % 16) * 256 + (n / 16 % 16) * 16 + n % 16
  {
    var a := n / 16;
    var b := a / 16;
    var c := b / 16;
    assert n == a * 16 + n % 16;
    assert a == b * 16 + a % 16;
    assert b == c * 16 + b % 16;
  }

  lemma ReadHex4Escape(n: nat, rest: string)
    requires n < 0x10000
    ensures ReadHex4(UnicodeEscape(n)[2..] + rest) == Some(n)
  {
    var t := UnicodeEscape(n)[2..] + rest;
    Hex4Digits(n);
    var d0, d1, d2, d3 := n / 16 / 16 / 16, n / 16 / 16 % 16, n / 16 % 16, n % 16;
    assert t[0] == LowerHexDigit(d0) && t[1] == LowerHexDigit(d1);
    assert t[2] == LowerHexDigit(d2) && t[3] == LowerHexDigit(d3);
    HexDigitRoundTrip(d0);
    HexDigitRoundTrip(d1);
    HexDigitRoundTrip(d2);
    HexDigitRoundTrip(d3);
  }

  lemma ReadBmpEscape(x: nat, rest: string)
    requires x < 0x10000 && !(0xD800 <= x < 0xE000)
    ensures ReadEscape(UnicodeEscape(x)[1..] + rest) == Some((x as char, rest))
  {
    var u := UnicodeEscape(x)[1..] + rest;
    assert u[1..] == UnicodeEscape(x)[2..] + rest;
    ReadHex4Escape(x, rest);
    assert u[5..] == rest;
  }

  /** The two halves of a surrogate pair, and the code point they stand for. */
  lemma SurrogateHalves(x: nat)
    requires 0x10000 <= x < 0x110000
    ensures var n := x - 0x10000;
      && 0xD800 <= 0xD800 + n / 1024 < 0xDC00 && 0xDC00 <= 0xDC00 + n % 1024 < 0xE000
      && 0x10000 + n / 1024 * 1024 + n % 1024 == x
  {
  }

  /** Reading a pair of escapes for a high and a low surrogate gives the character they encode. */
  lemma ReadPairEscape(hi: nat, lo: nat, rest: string)
    requires 0xD800 <= hi < 0xDC00 && 0xDC00 <= lo < 0xE000
    ensures ReadEscape((UnicodeEscape(hi) + UnicodeEscape(lo))[1..] + rest)
      == Some(((0x10000 + (hi - 0xD800) * 1024 + (lo - 0xDC00)) as char, rest))
  {
    var u := (UnicodeEscape(hi) + UnicodeEscape(lo))[1..] + rest;
    assert u[0] == 'u';
    assert u[1..] == UnicodeEscape(hi)[2..] + (UnicodeEscape(lo) + rest);
    ReadHex4Escape(hi, UnicodeEscape(lo) + rest);
    assert ReadHex4(u[1..]) == Some(hi);
    assert |u| >= 7 && u[5] == '\\' && u[6] == 'u';
    assert u[7..] == UnicodeEscape(lo)[2..] + rest;
    ReadHex4Escape(lo, rest);
    assert ReadHex4(u[7..]) == Some(lo);
    assert u[11..] == rest;
  }

  lemma ReadSurrogatePair(x: nat, rest: string)
    requires 0x10000 <= x < 0x110000
    ensures ReadEscape(SurrogateEscape(x)[1..] + rest) == Some((x as char, rest))
  {
    var n := x - 0x10000;
    SurrogateHalves(x);
    ReadPairEscape(0xD800 + n / 1024, 0xDC00 + n % 1024, rest);
  }

  /** A character written as a backslash and one letter. */
  predicate HasShortEscape(c: char) {
    c == '"' || c == '\\' || c == '\n' || c == '\r' || c == '\t' || c as int == 0x08 || c as int == 0x0C
  }

  lemma ReadShortEscape(c: char, rest: string)
    requires HasShortEscape(c)
    ensures ReadOne(EscapeChar(c) + rest) == Some((c, rest))
  {
    var t := EscapeChar(c) + rest;
    assert |EscapeChar(c)| == 2 && t[0] == '\\';
    assert t[1..][1..] == rest;
  }

  lemma ReadPlain(c: char, rest: string)
    requires !HasShortEscape(c) && 0x20 <= c as int <= 0x7E
    ensures ReadOne(EscapeChar(c) + rest) == Some((c, rest))
  {
    var t := EscapeChar(c) + rest;
    assert EscapeChar(c) == [c];
    assert t[1..] == rest;
  }

  lemma ReadBmp(c: char, rest: string)
    requires !HasShortEscape(c) && !(0x20 <= c as int <= 0x7E) && c as int < 0x10000
    ensures ReadOne(EscapeChar(c) + rest) == Some((c, rest))
  {
    var x := c as int;
    var t := EscapeChar(c) + rest;
    assert EscapeChar(c) == UnicodeEscape(x);
    assert t[1..] == UnicodeEscape(x)[1..] + rest;
    ReadBmpEscape(x, rest);
  }

  lemma ReadAstral(c: char, rest: string)
    requires c as int >= 0x10000
    ensures ReadOne(EscapeChar(c) + rest) == Some((c, rest))
  {
    var x := c as int;
    var e := SurrogateEscape(x);
    assert EscapeChar(c) == e;
    var t := e + rest;
    assert t[1..] == e[1..] + rest;
    ReadSurrogatePair(x, rest);
  }

  /** Reading one written character gives it back, followed by exactly what came after it. */
  lemma ReadOneEscapeChar(c: char, rest: string)
    ensures EscapeChar(c) + rest != [] && (EscapeChar(c) + rest)[0] != '"'
    ensures ReadOne(EscapeChar(c) + rest) == Some((c, rest))
  {
    var x := c as int;
    if HasShortEscape(c) {
      ReadShortEscape(c, rest);
    } else if 0x20 <= x <= 0x7E {
      ReadPlain(c, rest);
    } else if x < 0x10000 {
      ReadBmp(c, rest);
    } else {
      ReadAstral(c, rest);
    }
  }

  lemma {:induction false} ReadCharsEscapeAll(s: string, rest: string)
    ensures ReadChars(EscapeAll(s) + "\"" + rest) == Some((s, rest))
  {
    var t := EscapeAll(s) + "\"" + rest;
    if s == [] {
      assert t == "\"" + rest;
      assert t[1..] == rest;
    } else {
      var tail := EscapeAll(s[1..]) + "\"" + rest;
      assert t == EscapeChar(s[0]) + tail;
      ReadOneEscapeChar(s[0], tail);
      ReadCharsEscapeAll(s[1..], rest);
      assert [s[0]] + s[1..] == s;
    }
  }

  /** Reading back a written literal gives the string, and the text after it is left as it was. */
  lemma ReadQuoted(s: string, rest: string)
    ensures ReadString(Quoted(s) + rest) == Some((s, rest))
  {
    var t := Quoted(s) + rest;
    assert t[1..] == EscapeAll(s) + "\"" + rest;
    ReadCharsEscapeAll(s, rest);
  }

  /** Different strings are written as different literals. */
  lemma QuotedInjective(s1: string, s2: string)
    requires Quoted(s1) == Quoted(s2)
    ensures s1 == s2
  {
    ReadQuoted(s1, []);
    ReadQuoted(s2, []);
    assert Quoted(s1) + [] == Quoted(s1);
    assert Quoted(s2) + [] == Quoted(s2);
  }
}
