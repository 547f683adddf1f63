/**
 * Percent-encoding as `urllib.parse.quote` does it (RFC 3986 section 2.1): the text is
 * encoded as UTF-8, and every byte that is not an unreserved character (`A-Z a-z 0-9 _ . - ~`)
 * and not one of the caller's safe characters becomes `%` followed by two upper-case hex digits.
 */
module UrlQuote {
  import opened Common

  /** The UTF-8 encoding of one Unicode scalar value (RFC 3629 section 3). */
  function Utf8Char(c: char): (bs: seq<Byte>)
    ensures 1 <= |bs| <= 4
    ensures (c as int < 0x80) <==> |bs| == 1
    ensures |bs| == 1 ==> bs[0] == c as int
    ensures forall i :: 0 <= i < |bs| ==> (bs[i] < 0x80 <==> |bs| == 1)
  {
    var x := c as int;
    if x < 0x80 then [x]
    else if x < 0x800 then [0xC0 + x / 64, 0x80 + x % 64]
    else if x < 0x10000 then [0xE0 + x / 4096, 0x80 + (x / 64) % 64, 0x80 + x % 64]
    else [0xF0 + x / 262144, 0x80 + (x / 4096) % 64, 0x80 + (x / 64) % 64, 0x80 + x % 64]
  }

  /** `s.encode("utf-8")` */
  function Utf8(s: string): (bs: seq<Byte>)
    ensures |bs| >= |s|
  {
    if s == [] then [] else Utf8Char(s[0]) + Utf8(s[1..])
  }

  predicate IsUnreserved(b: Byte) {
    || ('A' as int <= b <= 'Z' as int)
    || ('a' as int <= b <= 'z' as int)
    || ('0' as int <= b <= '9' as int)
    || b == '_' as int || b == '.' as int || b == '-' as int || b == '~' as int
  }

  /** Whether `quote` leaves byte b as it is, given the caller's safe characters. */
  predicate KeepsByte(b: Byte, safe: string) {
    IsUnreserved(b) || (b < 0x80 && (b as char) in safe)
  }

  function HexDigit(n: nat): (c: char)
    requires n < 16
  {
    if n < 10 then ('0' as int + n) as char else ('A' as int + n - 10) as char
  }

  predicate IsHexDigit(c: char) {
    ('0' <= c <= '9') || ('A' <= c <= 'F') || ('a' <= c <= 'f')
  }

  function HexValue(c: char): (n: nat)
    requires IsHexDigit(c)
    ensures n < 16
  {
    if '0' <= c <= '9' then c as int - '0' as int
    else if 'A' <= c <= 'F' then c as int - 'A' as int + 10
    else c as int - 'a' as int + 10
  }

  function QuoteByte(b: Byte, safe: string): string {
    if KeepsByte(b, safe) then [b as char] else ['%', HexDigit(b / 16), HexDigit(b % 16)]
  }

  function QuoteBytes(bs: seq<Byte>, safe: string): (t: string)
    ensures |t| >= |bs|
  {
    if bs == [] then [] else QuoteByte(bs[0], safe) + QuoteBytes(bs[1..], safe)
  }

  /** `urllib.parse.quote(s, safe)` */
  function Quote(s: string, safe: string): string {
    QuoteBytes(Utf8(s), safe)
  }

  /** `urllib.parse.unquote_to_bytes(t)`: `%XY` with two hex digits is one byte, anything else its UTF-8 bytes. */
  function Unquote(t: string): seq<Byte> {
    if t == [] then []
    else if |t| >= 3 && t[0] == '%' && IsHexDigit(t[1]) && IsHexDigit(t[2]) then
      [HexValue(t[1]) * 16 + HexValue(t[2])] + Unquote(t[3..])
    else Utf8Char(t[0]) + Unquote(t[1..])
  }

  /** Unquoting one quoted byte, in front of anything, gives that byte back. */
  lemma UnquoteByte(b: Byte, safe: string, rest: string)
    requires '%' !in safe
    ensures Unquote(QuoteByte(b, safe) + rest) == [b] + Unquote(rest)
  {
    var q := QuoteByte(b, safe);
    if KeepsByte(b, safe) {
      assert (q + rest)[0] == b as char && (q + rest)[1..] == rest;
    } else {
      assert (q + rest)[3..] == rest;
    }
  }

  lemma {:induction false} UnquoteQuoteBytes(bs: seq<Byte>, safe: string)
    requires '%' !in safe
    ensures Unquote(QuoteBytes(bs, safe)) == bs
  {
    if bs != [] {
      UnquoteByte(bs[0], safe, QuoteBytes(bs[1..], safe));
      UnquoteQuoteBytes(bs[1..], safe);
    }
  }

  /**
   * Quoting loses nothing: unquoting the result gives back the UTF-8 bytes of the text,
   * whatever safe characters were chosen (as long as `%` is not one of them).
   */
  lemma UnquoteQuote(s: string, safe: string)
    requires '%' !in safe
    ensures Unquote(Quote(s, safe)) == Utf8(s)
  {
    UnquoteQuoteBytes(Utf8(s), safe);
  }

  /** The characters a quoted text can contain. */
  predicate IsQuotedChar(c: char, safe: string) {
    (c as int < 0x80 && KeepsByte(c as int, safe)) || c == '%' || ('0' <= c <= '9') || ('A' <= c <= 'F')
  }

  /** The output holds only kept characters, `%` and upper-case hex digits. */
  lemma {:induction false} QuoteAlphabet(bs: seq<Byte>, safe: string)
    ensures forall i :: 0 <= i < |QuoteBytes(bs, safe)| ==> IsQuotedChar(QuoteBytes(bs, safe)[i], safe)
  {
    if bs != [] {
      QuoteAlphabet(bs[1..], safe);
      var q := QuoteByte(bs[0], safe);
      var t := QuoteBytes(bs[1..], safe);
      assert forall i :: 0 <= i < |q| ==> IsQuotedChar(q[i], safe);
      assert QuoteBytes(bs, safe) == q + t;
    }
  }

  /** Text made only of unreserved characters is quoted as itself. */
  lemma {:induction false} QuoteUnreserved(s: string, safe: string)
    requires forall i :: 0 <= i < |s| ==> s[i] as int < 0x80 && IsUnreserved(s[i] as int)
    ensures Quote(s, safe) == s
  {
    if s != [] {
      QuoteUnreserved(s[1..], safe);
      assert Utf8(s) == [s[0] as int] + Utf8(s[1..]);
      assert Quote(s, safe) == [s[0]] + Quote(s[1..], safe);
    }
  }
}
