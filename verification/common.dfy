/** Option and Result, the shapes the model uses for Python's `None` and for raised errors. */
module Common {

  datatype Option<+T> = None | Some(value: T) {
    /** `opt or default`, as Python's `dict.get(key, default)` reads a missing key. */
    function GetOr(default: T): T {
      match this
      case Some(v) => v
      case None => default
    }
  }

  datatype Result<+T, +E> = Ok(value: T) | Err(error: E)

  /** An octet, for the byte strings the mail and URL code handles. */
  type Byte = x: int | 0 <= x < 256

  function Min(a: int, b: int): int { if a <= b then a else b }

  function Max(a: int, b: int): int { if a <= b then b else a }

  /** No element occurs twice. */
  predicate NoDuplicates<T(==)>(s: seq<T>) {
    forall i, j :: 0 <= i < j < |s| ==> s[i] != s[j]
  }

  /**
   * `s` lists the numbers 0 .. n-1, each exactly once, in some order: the order in which
   * a pool of workers may hand back n submitted tasks.
   */
  predicate IsOrdering(s: seq<nat>, n: nat) {
    && |s| == n
    && NoDuplicates(s)
    && (forall i :: 0 <= i < |s| ==> s[i] < n)
    && (forall x: nat :: x < n ==> x in s)
  }

  /** The concatenation of a list of lists. */
  function Flatten<T>(blocks: seq<seq<T>>): seq<T> {
    if blocks == [] then [] else Flatten(blocks[..|blocks| - 1]) + blocks[|blocks| - 1]
  }

  /** `[f(x) for x in xs]` */
  function MapSeq<A, B>(xs: seq<A>, f: A -> B): (r: seq<B>)
    ensures |r| == |xs| && forall i :: 0 <= i < |xs| ==> r[i] == f(xs[i])
  {
    if xs == [] then [] else MapSeq(xs[..|xs| - 1], f) + [f(xs[|xs| - 1])]
  }

  lemma FlattenSnoc<T>(blocks: seq<seq<T>>, i: nat)
    requires i < |blocks|
    ensures Flatten(blocks[..i + 1]) == Flatten(blocks[..i]) + blocks[i]
  {
    assert blocks[..i + 1][..i] == blocks[..i];
  }

  /** With blocks of five, block k sits at 5k .. 5k+4 of the concatenation. */
  lemma {:induction false} FlattenAt<T>(blocks: seq<seq<T>>, k: nat)
    requires forall i :: 0 <= i < |blocks| ==> |blocks[i]| == 5
    requires k < |blocks|
    ensures |Flatten(blocks)| == 5 * |blocks|
    ensures Flatten(blocks)[5 * k..5 * k + 5] == blocks[k]
  {
    var init := blocks[..|blocks| - 1];
    var last := blocks[|blocks| - 1];
    var front := Flatten(init);
    if k < |init| {
      FlattenAt(init, k);
      assert init[k] == blocks[k];
      SliceLeft(front, last, 5 * k, 5 * k + 5);
    } else {
      if init != [] {
        FlattenAt(init, 0);
      }
      assert |front| == 5 * k;
      SliceRight(front, last);
    }
  }

  lemma ConcatAssoc<T>(a: seq<T>, b: seq<T>, c: seq<T>)
    ensures a + (b + c) == (a + b) + c
  {
  }

  lemma TakeAll<T>(s: seq<T>)
    ensures s[..|s|] == s
  {
  }

  /** A slice inside the left operand of a concatenation is a slice of that operand. */
  lemma SliceLeft<T>(a: seq<T>, b: seq<T>, i: nat, j: nat)
    requires i <= j <= |a|
    ensures (a + b)[i..j] == a[i..j]
  {
  }

  /** A slice inside the right operand of a concatenation is a slice of that operand. */
  lemma SliceShift<T>(a: seq<T>, b: seq<T>, i: nat, j: nat)
    requires |a| <= i <= j <= |a| + |b|
    ensures (a + b)[i..j] == b[i - |a|..j - |a|]
  {
  }

  lemma TakeSnoc<T>(s: seq<T>, a: nat)
    requires a < |s|
    ensures s[..a + 1] == s[..a] + [s[a]] && s[..a + 1][..a] == s[..a]
  {
  }

  lemma SliceRight<T>(a: seq<T>, b: seq<T>)
    ensures (a + b)[|a|..|a| + |b|] == b
  {
  }
}

/**
 * Python dicts whose iteration order the program relies on: the keys in insertion order,
 * and the value stored under each key. Assigning to an existing key keeps its place.
 */
module OrderedMaps {
  import opened Common

  datatype OrderedMap<K, V> = OrderedMap(keys: seq<K>, values: map<K, V>)

  /** The key list has no repeats and lists exactly the keys of the map. */
  ghost predicate Valid<K(!new), V>(d: OrderedMap<K, V>) {
    && (forall i, j :: 0 <= i < j < |d.keys| ==> d.keys[i] != d.keys[j])
    && (forall k :: k in d.values <==> k in d.keys)
  }

  function Empty<K(!new), V>(): (d: OrderedMap<K, V>)
    ensures Valid(d) && d.keys == []
  {
    OrderedMap([], map[])
  }

  /** `d[k] = v` */
  function Put<K(==,!new), V>(d: OrderedMap<K, V>, k: K, v: V): (r: OrderedMap<K, V>)
    ensures r.values == d.values[k := v]
    ensures k in d.keys ==> r.keys == d.keys
    ensures k !in d.keys ==> r.keys == d.keys + [k]
    ensures Valid(d) ==> Valid(r)
  {
    OrderedMap(if k in d.keys then d.keys else d.keys + [k], d.values[k := v])
  }

  /** The keys of a list of names in order of first occurrence: what `d[name] = ...` leaves behind. */
  function FirstOccurrences<K(==)>(names: seq<K>): (r: seq<K>)
    ensures NoDuplicates(r)
    ensures forall i :: 0 <= i < |r| ==> r[i] in names
    ensures forall i :: 0 <= i < |names| ==> names[i] in r
  {
    if names == [] then []
    else
      var prefix := FirstOccurrences(names[..|names| - 1]);
      var last := names[|names| - 1];
      assert forall i :: 0 <= i < |names| - 1 ==> names[i] == names[..|names| - 1][i];
      if last in prefix then prefix else prefix + [last]
  }
}
