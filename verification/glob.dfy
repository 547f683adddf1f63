/**
 * Shell-style wildcards as Python's `fnmatch.fnmatch` reads them on POSIX systems, where
 * matching is case-sensitive: `*` matches any run of characters, `?` any one character,
 * `[seq]` one character from the set and `[!seq]` one character outside it. Inside a set,
 * `a-z` is a range, a range whose ends are reversed matches nothing, a `]` right after the
 * opening `[` (or `[!`) belongs to the set, and a `[` with no closing `]` is an ordinary
 * character. Every other character, the backslash included, stands for itself.
 */
module Glob {
  import opened PyStr

  datatype ClassItem = Single(c: char) | Range(lo: char, hi: char)

  datatype Token =
    | AnyString
    | AnyChar
    | Lit(c: char)
    | Class(negated: bool, items: seq<ClassItem>)

  /** The characters with a meaning of their own in a pattern. */
  predicate IsMeta(c: char) { c == '*' || c == '?' || c == '[' }

  predicate HasNoMeta(p: string) {
    forall i :: 0 <= i < |p| ==> !IsMeta(p[i])
  }

  /** Reads the inside of a bracket set from left to right: `x-y` is a range, anything else one character. */
  function ClassItems(body: string): (items: seq<ClassItem>)
    ensures |items| <= |body|
  {
    if body == [] then []
    else if |body| >= 3 && body[1] == '-' then [Range(body[0], body[2])] + ClassItems(body[3..])
    else [Single(body[0])] + ClassItems(body[1..])
  }

  /**
   * For a pattern starting with `[`, the index of the `]` that closes the set, or -1 when
   * there is none (then the `[` is an ordinary character).
   */
  function ClassClose(p: string): (j: int)
    requires p != [] && p[0] == '['
    ensures j == -1 || (1 <= j < |p| && p[j] == ']')
    ensures j >= 0 ==> (if |p| > 1 && p[1] == '!' then 3 else 2) <= j
  {
    var k0 := if |p| > 1 && p[1] == '!' then 2 else 1;
    var k := if k0 < |p| && p[k0] == ']' then k0 + 1 else k0;
    var r := Find(p[k..], "]");
    if r < 0 then -1
    else
      assert p[k..][r..r + 1] == "]";
      k + r
  }

  function Tokenize(p: string): (toks: seq<Token>)
    decreases |p|
  {
    if p == [] then []
    else if p[0] == '*' then [AnyString] + Tokenize(p[1..])
    else if p[0] == '?' then [AnyChar] + Tokenize(p[1..])
    else if p[0] == '[' then
      var j := ClassClose(p);
      if j < 0 then [Lit('[')] + Tokenize(p[1..])
      else
        var negated := p[1] == '!';
        var body := p[if negated then 2 else 1..j];
        [Class(negated, ClassItems(body))] + Tokenize(p[j + 1..])
    else [Lit(p[0])] + Tokenize(p[1..])
  }

  predicate InItems(c: char, items: seq<ClassItem>) {
    exists i :: 0 <= i < |items| && match items[i]
      case Single(x) => c == x
      case Range(lo, hi) => lo <= c <= hi
  }

  /** Does one token that consumes one character accept `c`? */
  predicate AcceptsChar(t: Token, c: char)
    requires !t.AnyString?
  {
    match t
    case AnyChar => true
    case Lit(x) => c == x
    case Class(negated, items) => InItems(c, items) != negated
  }

  /** Do the tokens match the whole of `s`? */
  predicate MatchTokens(toks: seq<Token>, s: string)
    decreases |toks|, |s|
  {
    if toks == [] then s == []
    else if toks[0].AnyString? then MatchTokens(toks[1..], s) || (s != [] && MatchTokens(toks, s[1..]))
    else s != [] && AcceptsChar(toks[0], s[0]) && MatchTokens(toks[1..], s[1..])
  }

  /** `fnmatch.fnmatch(name, pattern)` */
  predicate FnMatch(name: string, pattern: string) {
    MatchTokens(Tokenize(pattern), name)
  }

  /** A lone `*` accepts every string. */
  lemma {:induction false} StarMatchesAll(s: string)
    ensures MatchTokens([AnyString], s)
    decreases |s|
  {
    if s != [] {
      StarMatchesAll(s[1..]);
    }
  }

  lemma {:induction false} LiteralTokens(p: string)
    requires HasNoMeta(p)
    ensures Tokenize(p) == seq(|p|, i requires 0 <= i < |p| => Lit(p[i]))
  {
    if p != [] {
      LiteralTokens(p[1..]);
    }
  }

  lemma {:induction false} MatchLiteralThen(p: string, rest: seq<Token>, s: string)
    ensures MatchTokens(seq(|p|, i requires 0 <= i < |p| => Lit(p[i])) + rest, s)
        <==> StartsWith(s, p) && MatchTokens(rest, s[|p|..])
  {
    var lits := seq(|p|, i requires 0 <= i < |p| => Lit(p[i]));
    if p != [] {
      var tail := seq(|p| - 1, i requires 0 <= i < |p| - 1 => Lit(p[1..][i]));
      assert (lits + rest)[1..] == tail + rest;
      if s != [] {
        MatchLiteralThen(p[1..], rest, s[1..]);
        assert StartsWith(s, p) <==> s[0] == p[0] && StartsWith(s[1..], p[1..]);
        if |p| <= |s| {
          assert s[1..][|p| - 1..] == s[|p|..];
        }
      }
    } else {
      assert lits + rest == rest;
    }
  }

  /** A pattern without `*`, `?` or `[` matches exactly the string it spells. */
  lemma LiteralPatternMatchesItself(name: string, pattern: string)
    requires HasNoMeta(pattern)
    ensures FnMatch(name, pattern) <==> name == pattern
  {
    LiteralTokens(pattern);
    var lits := seq(|pattern|, i requires 0 <= i < |pattern| => Lit(pattern[i]));
    assert lits + [] == lits;
    MatchLiteralThen(pattern, [], name);
  }

  /** A literal prefix followed by `*` matches exactly the strings that start with that prefix. */
  lemma PrefixStarMatchesPrefixed(name: string, prefix: string)
    requires HasNoMeta(prefix)
    ensures FnMatch(name, prefix + "*") <==> StartsWith(name, prefix)
  {
    var p := prefix + "*";
    PrefixStarTokens(prefix);
    MatchLiteralThen(prefix, [AnyString], name);
    if StartsWith(name, prefix) {
      StarMatchesAll(name[|prefix|..]);
    }
  }

  lemma {:induction false} PrefixStarTokens(prefix: string)
    requires HasNoMeta(prefix)
    ensures Tokenize(prefix + "*") == seq(|prefix|, i requires 0 <= i < |prefix| => Lit(prefix[i])) + [AnyString]
  {
    if prefix == [] {
      assert prefix + "*" == "*";
      assert Tokenize("*") == [AnyString] + Tokenize([]);
    } else {
      assert (prefix + "*")[1..] == prefix[1..] + "*";
      PrefixStarTokens(prefix[1..]);
    }
  }
}
