/**
 * The pieces of Python's `str` that the program relies on: `strip`, `split`, `join`,
 * `startswith`, `find`/`rfind`, slices with Python's index rules, `lower` on ASCII,
 * `str(n)` for naturals and `int(s)` for decimal text.
 */
module PyStr {
  import opened Common

  /** `c.isspace()`: the characters Python treats as whitespace (also what `\s` matches). */
  predicate IsSpace(c: char) {
    var x := c as int;
    || (0x09 <= x <= 0x0D) || (0x1C <= x <= 0x20) || x == 0x85 || x == 0xA0 || x == 0x1680
    || (0x2000 <= x <= 0x200A) || x == 0x2028 || x == 0x2029 || x == 0x202F || x == 0x205F
    || x == 0x3000
  }

  /** Drops the longest prefix whose characters all satisfy `drop`. */
  function LStripBy(s: string, drop: char -> bool): (r: string)
    ensures |r| <= |s|
  {
    if s != [] && drop(s[0]) then LStripBy(s[1..], drop) else s
  }

  /** Every dropped character is removable, and the first kept one is not. */
  lemma {:induction false} LStripBySpec(s: string, drop: char -> bool)
    ensures var r := LStripBy(s, drop);
      && r == s[|s| - |r|..]
      && (forall i :: 0 <= i < |s| - |r| ==> drop(s[i]))
      && (r == [] || !drop(r[0]))
  {
    if s != [] && drop(s[0]) {
      var t := s[1..];
      LStripBySpec(t, drop);
      var r := LStripBy(s, drop);
      assert r == LStripBy(t, drop);
      forall i | 0 <= i < |s| - |r|
        ensures drop(s[i])
      {
        if i > 0 {
          assert s[i] == t[i - 1];
        }
      }
    }
  }

  /** Drops the longest suffix whose characters all satisfy `drop`. */
  function RStripBy(s: string, drop: char -> bool): (r: string)
    ensures |r| <= |s|
  {
    if s != [] && drop(s[|s| - 1]) then RStripBy(s[..|s| - 1], drop) else s
  }

  /** Every dropped character is removable, and the last kept one is not. */
  lemma {:induction false} RStripBySpec(s: string, drop: char -> bool)
    ensures var r := RStripBy(s, drop);
      && r == s[..|r|]
      && (forall i :: |r| <= i < |s| ==> drop(s[i]))
      && (r == [] || !drop(r[|r| - 1]))
  {
    if s != [] && drop(s[|s| - 1]) {
      var t := s[..|s| - 1];
      RStripBySpec(t, drop);
      var r := RStripBy(s, drop);
      assert r == RStripBy(t, drop);
      forall i | |r| <= i < |s|
        ensures drop(s[i])
      {
        if i < |s| - 1 {
          assert s[i] == t[i];
        }
      }
    }
  }

  function StripBy(s: string, drop: char -> bool): string {
    RStripBy(LStripBy(s, drop), drop)
  }

  /** `s.strip()` */
  function Strip(s: string): string {
    StripBy(s, IsSpace)
  }

  /** `s.strip(chars)` */
  function StripChars(s: string, chars: string): string {
    StripBy(s, c => c in chars)
  }

  /** A stripped string has no removable character at either end. */
  lemma StripBySpec(s: string, drop: char -> bool)
    ensures var r := StripBy(s, drop); r == [] || (!drop(r[0]) && !drop(r[|r| - 1]))
  {
    var l := LStripBy(s, drop);
    var r := RStripBy(l, drop);
    LStripBySpec(s, drop);
    RStripBySpec(l, drop);
    if r != [] {
      assert r[0] == l[0];
    }
  }

  /** Stripping twice strips nothing more. */
  lemma StripByIdempotent(s: string, drop: char -> bool)
    ensures StripBy(StripBy(s, drop), drop) == StripBy(s, drop)
  {
    var r := StripBy(s, drop);
    StripBySpec(s, drop);
    assert r == [] || !drop(r[0]);
    RStripBySpec(r, drop);
    assert LStripBy(r, drop) == r;
    assert RStripBy(r, drop) == r;
  }

  /** A string with no removable character anywhere is left as it is. */
  lemma StripByNothing(s: string, drop: char -> bool)
    requires forall i :: 0 <= i < |s| ==> !drop(s[i])
    ensures StripBy(s, drop) == s
  {
    assert LStripBy(s, drop) == s;
  }

  /** A string whose two ends are not removable is left as it is. */
  lemma StripByEnds(s: string, drop: char -> bool)
    requires s != [] && !drop(s[0]) && !drop(s[|s| - 1])
    ensures StripBy(s, drop) == s
  {
    assert LStripBy(s, drop) == s;
  }

  /** `s.startswith(p)` */
  predicate StartsWith<T(==)>(s: seq<T>, p: seq<T>) {
    |p| <= |s| && s[..|p|] == p
  }

  /** `sub` occurs in `s` at index i. */
  predicate OccursAt<T(==)>(s: seq<T>, sub: seq<T>, i: int) {
    0 <= i && i + |sub| <= |s| && s[i..i + |sub|] == sub
  }

  /** `s.find(sub)`: the first index where `sub` occurs, or -1. */
  function Find<T(==)>(s: seq<T>, sub: seq<T>): (r: int)
    ensures -1 <= r <= |s|
    ensures r == -1 <==> forall i :: 0 <= i <= |s| ==> !OccursAt(s, sub, i)
    ensures r >= 0 ==> OccursAt(s, sub, r) && forall i :: 0 <= i < r ==> !OccursAt(s, sub, i)
  {
    FindFrom(s, sub, 0)
  }

  function FindFrom<T(==)>(s: seq<T>, sub: seq<T>, from: nat): (r: int)
    requires from <= |s| + 1
    ensures -1 <= r <= |s|
    ensures r == -1 <==> forall i :: from <= i <= |s| ==> !OccursAt(s, sub, i)
    ensures r >= 0 ==> from <= r && OccursAt(s, sub, r) && forall i :: from <= i < r ==> !OccursAt(s, sub, i)
    decreases |s| + 1 - from
  {
    if from > |s| then -1
    else if OccursAt(s, sub, from) then from
    else FindFrom(s, sub, from + 1)
  }

  /** `s.rfind(sub)`: the last index where `sub` occurs, or -1. */
  function RFind<T(==)>(s: seq<T>, sub: seq<T>): (r: int)
    ensures -1 <= r <= |s|
    ensures r == -1 <==> forall i :: 0 <= i <= |s| ==> !OccursAt(s, sub, i)
    ensures r >= 0 ==> OccursAt(s, sub, r) && forall i :: r < i <= |s| ==> !OccursAt(s, sub, i)
  {
    RFindBelow(s, sub, |s| + 1)
  }

  function RFindBelow<T(==)>(s: seq<T>, sub: seq<T>, below: nat): (r: int)
    requires below <= |s| + 1
    ensures -1 <= r < below
    ensures r == -1 <==> forall i :: 0 <= i < below ==> !OccursAt(s, sub, i)
    ensures r >= 0 ==> OccursAt(s, sub, r) && forall i :: r < i < below ==> !OccursAt(s, sub, i)
  {
    if below == 0 then -1
    else if OccursAt(s, sub, below - 1) then below - 1
    else RFindBelow(s, sub, below - 1)
  }

  /** Position i holds the last occurrence of c in s. */
  predicate LastAt(s: string, c: char, i: int) {
    0 <= i < |s| && s[i] == c && forall j :: i < j < |s| ==> s[j] != c
  }

  /** Position i holds the first occurrence of c in s. */
  predicate FirstAt(s: string, c: char, i: int) {
    0 <= i < |s| && s[i] == c && forall j :: 0 <= j < i ==> s[j] != c
  }

  /** A one-character pattern occurs exactly where that character is. */
  lemma OccursAtChar(s: string, c: char)
    ensures forall i :: OccursAt(s, [c], i) <==> 0 <= i < |s| && s[i] == c
  {
    forall i | 0 <= i < |s|
      ensures s[i..i + 1] == [s[i]]
    {
    }
  }

  /** `s.rfind(c)` for one character: -1 when absent, else its last position. */
  lemma RFindChar(s: string, c: char)
    ensures RFind(s, [c]) == -1 <==> c !in s
    ensures RFind(s, [c]) >= 0 ==> LastAt(s, c, RFind(s, [c]))
  {
    OccursAtChar(s, c);
  }

  /** `s.find(c)` for one character: -1 when absent, else its first position. */
  lemma FindChar(s: string, c: char)
    ensures Find(s, [c]) == -1 <==> c !in s
    ensures Find(s, [c]) >= 0 ==> FirstAt(s, c, Find(s, [c]))
  {
    OccursAtChar(s, c);
  }

  /** Python's reading of a slice bound against a sequence of length n. */
  function SliceIndex(i: int, n: nat): (r: nat)
    ensures r <= n
    ensures 0 <= i ==> r == Min(i, n)
    ensures i < 0 ==> r == Max(0, n + i)
  {
    if i < 0 then (if n + i < 0 then 0 else n + i) else if i > n then n else i
  }

  /** `s[start:stop]` with Python's rules for negative and out-of-range bounds. */
  function Slice<T>(s: seq<T>, start: int, stop: int): (r: seq<T>)
    ensures |r| <= |s|
    ensures 0 <= start <= stop <= |s| ==> r == s[start..stop]
    ensures 0 <= stop <= start ==> r == []
  {
    var a, b := SliceIndex(start, |s|), SliceIndex(stop, |s|);
    if a < b then s[a..b] else []
  }

  /** `s[:stop]` */
  function Prefix<T>(s: seq<T>, stop: int): (r: seq<T>)
    ensures 0 <= stop ==> r == s[..Min(stop, |s|)]
    ensures stop < 0 ==> r == s[..Max(0, |s| + stop)]
  {
    s[..SliceIndex(stop, |s|)]
  }

  /** `sep.join(parts)` */
  function Join(sep: string, parts: seq<string>): string {
    if parts == [] then []
    else if |parts| == 1 then parts[0]
    else parts[0] + sep + Join(sep, parts[1..])
  }

  /** `s.split(sep)` for a one-character separator. */
  function Split(s: string, sep: char): (parts: seq<string>)
    ensures |parts| >= 1
    ensures forall i :: 0 <= i < |parts| ==> sep !in parts[i]
    decreases |s|
  {
    var i := Find(s, [sep]);
    if i < 0 then
      assert forall k :: 0 <= k < |s| ==> !OccursAt(s, [sep], k) && s[k..k + 1] == [s[k]];
      [s]
    else
      assert forall k :: 0 <= k < i ==> !OccursAt(s, [sep], k) && s[k..k + 1] == [s[k]];
      [s[..i]] + Split(s[i + 1..], sep)
  }

  /** Without the separator, a split gives the whole string. */
  lemma SplitNoSep(s: string, c: char)
    requires c !in s
    ensures Split(s, c) == [s]
  {
    FindChar(s, c);
  }

  /** Splitting at the first separator: the text before it, then the pieces of the rest. */
  lemma SplitAt(s: string, c: char, i: int)
    requires FirstAt(s, c, i)
    ensures Split(s, c) == [s[..i]] + Split(s[i + 1..], c)
  {
    FindChar(s, c);
    var k := Find(s, [c]);
    assert FirstAt(s, c, k);
  }

  /** Joining the pieces of a split with the separator gives back the string. */
  lemma {:induction false} JoinSplit(s: string, sep: char)
    ensures Join([sep], Split(s, sep)) == s
    decreases |s|
  {
    if sep in s {
      FindChar(s, sep);
      var i := Find(s, [sep]);
      SplitAt(s, sep, i);
      JoinSplit(s[i + 1..], sep);
      var parts := [s[..i]] + Split(s[i + 1..], sep);
      assert parts[1..] == Split(s[i + 1..], sep);
      assert Join([sep], parts) == s[..i] + [sep] + s[i + 1..];
      assert s == s[..i] + [s[i]] + s[i + 1..];
    } else {
      SplitNoSep(s, sep);
    }
  }

  /** The first piece of a split is the text before the first separator, or all of it. */
  lemma SplitHead(s: string, c: char)
    ensures var h := Split(s, c)[0];
      |h| <= |s| && s[..|h|] == h && (|h| == |s| || s[|h|] == c)
  {
    if c in s {
      FindChar(s, c);
      SplitAt(s, c, Find(s, [c]));
    } else {
      SplitNoSep(s, c);
    }
  }

  /** Splitting at a separator that occurs: the text before it, then the pieces of the rest. */
  lemma SplitAtFirst(s: string, c: char)
    requires c in s
    ensures var i := Find(s, [c]);
      0 <= i < |s| && Split(s, c) == [s[..i]] + Split(s[i + 1..], c)
  {
    FindChar(s, c);
    SplitAt(s, c, Find(s, [c]));
  }

  function AsciiLowerChar(c: char): char {
    if 'A' <= c <= 'Z' then (c as int + 32) as char else c
  }

  /**
   * `s.lower()` restricted to ASCII letters. Outside ASCII only the Kelvin sign lowers to an
   * ASCII letter ('k'), so comparing the result with a lower-case ASCII key decides the same.
   */
  function AsciiLower(s: string): (r: string)
    ensures |r| == |s| && forall i :: 0 <= i < |s| ==> r[i] == AsciiLowerChar(s[i])
  {
    if s == [] then [] else [AsciiLowerChar(s[0])] + AsciiLower(s[1..])
  }

  predicate IsDigit(c: char) { '0' <= c <= '9' }

  function DigitChar(d: nat): char
    requires d < 10
  {
    ('0' as int + d) as char
  }

  /** `str(n)` for a natural number. */
  function Decimal(n: nat): (r: string)
    ensures r != [] && forall i :: 0 <= i < |r| ==> IsDigit(r[i])
  {
    if n < 10 then [DigitChar(n)] else Decimal(n / 10) + [DigitChar(n % 10)]
  }

  /** The value of a string of decimal digits, most significant first. */
  function DigitsValue(ds: string): nat
    requires forall i :: 0 <= i < |ds| ==> IsDigit(ds[i])
  {
    if ds == [] then 0
    else
      assert IsDigit(ds[|ds| - 1]);
      DigitsValue(ds[..|ds| - 1]) * 10 + (ds[|ds| - 1] as int - '0' as int)
  }

  /**
   * The digits of an integer literal body as `int()` accepts them: one or more digits, where
   * single underscores may separate digits. Gives the digits with the underscores removed.
   */
  function UnderscoredDigits(t: string): (r: Option<string>)
    ensures r.Some? ==> r.value != [] && forall i :: 0 <= i < |r.value| ==> IsDigit(r.value[i])
  {
    if t == [] || !IsDigit(t[0]) then None
    else if |t| == 1 then Some(t)
    else if t[1] == '_' then
      if |t| >= 3 && IsDigit(t[2]) then
        match UnderscoredDigits(t[2..])
        case Some(ds) => Some([t[0]] + ds)
        case None => None
      else None
    else
      match UnderscoredDigits(t[1..])
      case Some(ds) => Some([t[0]] + ds)
      case None => None
  }

  /**
   * `int(s)` for a string: surrounding whitespace is ignored, an optional sign, then decimal
   * digits with optional single underscores between them; anything else raises ValueError
   * (`None` here). Non-ASCII decimal digits, which `int` also accepts, are not modelled.
   */
  function ParseInt(s: string): (r: Option<int>)
    ensures r.Some? ==> Strip(s) != []
  {
    var t := Strip(s);
    if t == [] then None
    else
      var negative := t[0] == '-';
      var body := if t[0] == '-' || t[0] == '+' then t[1..] else t;
      match UnderscoredDigits(body)
      case None => None
      case Some(ds) =>
        var v: int := DigitsValue(ds);
        Some(if negative then -v else v)
  }

  lemma {:induction false} DigitsValueDecimal(n: nat)
    ensures DigitsValue(Decimal(n)) == n
  {
    if n >= 10 {
      var d := Decimal(n);
      assert d[..|d| - 1] == Decimal(n / 10);
      DigitsValueDecimal(n / 10);
    }
  }

  lemma {:induction false} UnderscoredDigitsPlain(ds: string)
    requires ds != [] && forall i :: 0 <= i < |ds| ==> IsDigit(ds[i])
    ensures UnderscoredDigits(ds) == Some(ds)
  {
    if |ds| > 1 {
      UnderscoredDigitsPlain(ds[1..]);
      assert [ds[0]] + ds[1..] == ds;
    }
  }

  /** `int(str(n)) == n`: the decimal text of a natural reads back as that natural. */
  lemma ParseDecimal(n: nat)
    ensures ParseInt(Decimal(n)) == Some(n)
  {
    var d := Decimal(n);
    StripByNothing(d, IsSpace);
    UnderscoredDigitsPlain(d);
    DigitsValueDecimal(n);
  }
}
