/**
 * JavaScript runtime notions the transform relies on: optional and nullable
 * values, `String.prototype.slice`, the regular-expression character classes
 * `\s`, `\w` and the line terminators that `.` refuses, and plain objects
 * with string keys kept in insertion order (attribute records).
 */
module Js {

  datatype Option<+T> = None | Some(value: T)

  /** A value that may be JavaScript's `null` or `undefined`. */
  datatype Nullable<+T> = Null | Undefined | Value(value: T)

  /** `String.prototype.slice(start, end)` for non-negative offsets: both ends are
      clamped to the length and a reversed range is empty. */
  function Slice(s: string, start: nat, end: nat): (r: string)
    ensures start <= end <= |s| ==> r == s[start..end]
    ensures end <= start ==> r == ""
    ensures |r| <= |s|
  {
    var a := if start <= |s| then start else |s|;
    var b := if end <= |s| then end else |s|;
    if a < b then s[a..b] else ""
  }

  /** The characters matched by `\s`. */
  predicate IsSpace(c: char)
  {
    c == ' ' || c == '\t' || c == '\n' || c == '\r' || c == '\U{000B}' || c == '\U{000C}'
    || c == '\U{00A0}' || c == '\U{1680}' || ('\U{2000}' <= c <= '\U{200A}')
    || c == '\U{2028}' || c == '\U{2029}' || c == '\U{202F}' || c == '\U{205F}'
    || c == '\U{3000}' || c == '\U{FEFF}'
  }

  /** The characters that `.` does not match. */
  predicate IsLineTerminator(c: char)
  {
    c == '\n' || c == '\r' || c == '\U{2028}' || c == '\U{2029}'
  }

  /** The characters matched by `\w`. */
  predicate IsWordChar(c: char)
  {
    ('a' <= c <= 'z') || ('A' <= c <= 'Z') || ('0' <= c <= '9') || c == '_'
  }

  predicate IsLower(c: char)
  {
    'a' <= c <= 'z'
  }

  /** `toUpperCase`, modelled on ASCII only: a lower-case ASCII letter becomes
      its upper-case letter and every other character is kept. JavaScript's
      Unicode case mapping is not modelled. */
  function ToUpper(c: char): (r: char)
    ensures IsLower(c) ==> 'A' <= r <= 'Z'
    ensures !IsLower(c) ==> r == c
  {
    if IsLower(c) then (c as int - 32) as char else c
  }

  predicate StartsWith(s: string, prefix: string)
  {
    |prefix| <= |s| && s[..|prefix|] == prefix
  }

  predicate NoLineTerminator(s: string)
  {
    forall i :: 0 <= i < |s| ==> !IsLineTerminator(s[i])
  }

  /** `String.prototype.trimStart`: drops leading white space and line terminators
      (exactly the characters `\s` matches). */
  function TrimStart(s: string): (r: string)
    ensures |r| <= |s| && r == s[|s| - |r|..]
    ensures |r| > 0 ==> !IsSpace(r[0])
    ensures forall i :: 0 <= i < |s| - |r| ==> IsSpace(s[i])
    decreases |s|
  {
    if |s| > 0 && IsSpace(s[0]) then TrimStart(s[1..]) else s
  }

  /** `' '.repeat(n)` */
  function Spaces(n: nat): (r: string)
    ensures |r| == n
    ensures forall i :: 0 <= i < n ==> r[i] == ' '
  {
    seq(n, i => ' ')
  }

  /** The characters a lazy `.*?` (or `(.|[\r\n])*?` when `crlfAllowed`) cannot step over. */
  predicate IsBarrier(c: char, crlfAllowed: bool)
  {
    c == '\U{2028}' || c == '\U{2029}' || (!crlfAllowed && (c == '\n' || c == '\r'))
  }

  predicate BarrierIn(s: string, from: nat, to: nat, crlfAllowed: bool)
    requires from <= to <= |s|
  {
    exists m :: from <= m < to && IsBarrier(s[m], crlfAllowed)
  }

  /**
   * Where a lazy match of `X*?ab`, started at `j`, finds its closing pair `ab`:
   * the first `k >= j` with `s[k..k+2] == [a, b]`, provided no barrier character
   * comes before it; no match when a barrier or the end of the text comes first.
   */
  function FindPair(s: string, j: nat, a: char, b: char, crlfAllowed: bool): (r: Option<nat>)
    requires j <= |s|
    ensures r.Some? ==> j <= r.value && r.value + 2 <= |s| && s[r.value] == a && s[r.value + 1] == b
    ensures r.Some? ==> forall k :: j <= k < r.value ==> !IsBarrier(s[k], crlfAllowed) && !(s[k] == a && s[k + 1] == b)
    ensures r.None? ==> forall k :: j <= k < |s| - 1 && s[k] == a && s[k + 1] == b ==> BarrierIn(s, j, k, crlfAllowed)
    decreases |s| - j
  {
    if j + 2 > |s| then None
    else if s[j] == a && s[j + 1] == b then Some(j)
    else if IsBarrier(s[j], crlfAllowed) then None
    else FindPair(s, j + 1, a, b, crlfAllowed)
  }

  /** A lazy search from `j` that meets neither a barrier nor an earlier pair
      stops at the pair at `k`. */
  lemma {:induction false} FindPairReaches(s: string, j: nat, k: nat, a: char, b: char, crlfAllowed: bool)
    requires j <= k && k + 2 <= |s| && s[k] == a && s[k + 1] == b
    requires forall m :: j <= m < k ==> !IsBarrier(s[m], crlfAllowed) && !(s[m] == a && s[m + 1] == b)
    ensures FindPair(s, j, a, b, crlfAllowed) == Some(k)
    decreases k - j
  {
    if j < k {
      FindPairReaches(s, j + 1, k, a, b, crlfAllowed);
    }
  }

  /** A plain object with string keys, its properties in insertion order. */
  type Entries<V> = seq<(string, V)>

  /** A plain object with string values, such as the attributes of a tag. */
  type Record = Entries<string>

  predicate HasKey<V>(r: Entries<V>, k: string)
  {
    exists i :: 0 <= i < |r| && r[i].0 == k
  }

  predicate UniqueKeys<V>(r: Entries<V>)
  {
    forall i, j :: 0 <= i < j < |r| ==> r[i].0 != r[j].0
  }

  /** Property read `r[k]`: the value stored under `k`, or `undefined`. */
  function Get<V(==)>(r: Entries<V>, k: string): (v: Option<V>)
    ensures v.Some? <==> HasKey(r, k)
    ensures v.Some? ==> (k, v.value) in r
  {
    if |r| == 0 then None
    else if r[0].0 == k then Some(r[0].1)
    else Get(r[1..], k)
  }

  /** Property write `r[k] = v`: an existing key keeps its position, a new one goes last. */
  function Put<V>(r: Entries<V>, k: string, v: V): (r': Entries<V>)
    ensures HasKey(r, k) ==> |r'| == |r|
    ensures !HasKey(r, k) ==> r' == r + [(k, v)]
    ensures forall i :: 0 <= i < |r| ==> r'[i].0 == r[i].0
    ensures UniqueKeys(r) ==> UniqueKeys(r')
  {
    if |r| == 0 then [(k, v)]
    else if r[0].0 == k then [(k, v)] + r[1..]
    else [r[0]] + Put(r[1..], k, v)
  }

  /** `delete r[k]`. */
  function Delete<V(==,!new)>(r: Entries<V>, k: string): (r': Entries<V>)
    ensures !HasKey(r', k)
    ensures forall e :: e in r' <==> e in r && e.0 != k
    ensures UniqueKeys(r) ==> UniqueKeys(r')
  {
    if |r| == 0 then []
    else if r[0].0 == k then Delete(r[1..], k)
    else [r[0]] + Delete(r[1..], k)
  }

  lemma {:induction false} GetPut<V>(r: Entries<V>, k: string, v: V, j: string)
    ensures Get(Put(r, k, v), j) == if j == k then Some(v) else Get(r, j)
  {
    if |r| != 0 && r[0].0 != k {
      GetPut(r[1..], k, v, j);
    }
  }

  /* A JavaScript `Set` of values, iterated in insertion order: a sequence
     without duplicates. */

  predicate NoDuplicates<T(==)>(s: seq<T>)
  {
    forall i, j :: 0 <= i < j < |s| ==> s[i] != s[j]
  }

  /** `set.add(x)`. */
  function Add<T(==,!new)>(s: seq<T>, x: T): (r: seq<T>)
    ensures NoDuplicates(s) ==> NoDuplicates(r)
    ensures forall y :: y in r <==> y in s || y == x
    ensures x in s ==> r == s
    ensures x !in s ==> r == s + [x]
  {
    if x in s then s else s + [x]
  }

  /** Adding every element of `xs`, in order, to the set `s`. */
  function AddAll<T(==,!new)>(s: seq<T>, xs: seq<T>): seq<T>
    decreases |xs|
  {
    if |xs| == 0 then s else AddAll(Add(s, xs[0]), xs[1..])
  }

  /** The set only grows, keeps its order, gains exactly the elements of `xs`
      and stays free of duplicates. */
  lemma {:induction false} AddAllSpec<T(!new)>(s: seq<T>, xs: seq<T>)
    ensures NoDuplicates(s) ==> NoDuplicates(AddAll(s, xs))
    ensures forall y :: y in AddAll(s, xs) <==> y in s || y in xs
    ensures StartsWithSeq(AddAll(s, xs), s)
    decreases |xs|
  {
    if |xs| != 0 {
      AddAllSpec(Add(s, xs[0]), xs[1..]);
      assert xs == [xs[0]] + xs[1..];
      var r := AddAll(s, xs);
      assert r[..|Add(s, xs[0])|][..|s|] == r[..|s|];
    }
  }

  predicate StartsWithSeq<T(==,!new)>(s: seq<T>, prefix: seq<T>)
  {
    |prefix| <= |s| && s[..|prefix|] == prefix
  }

  /** `[...new Set(xs)]`, which is also `uniq(xs)`: the first occurrence of each value, in order. */
  function Dedup<T(==,!new)>(xs: seq<T>): (r: seq<T>)
    ensures NoDuplicates(r)
    ensures forall y :: y in r <==> y in xs
  {
    AddAllSpec([], xs);
    AddAll([], xs)
  }

  lemma {:induction false} AddAllConcat<T(!new)>(s: seq<T>, xs: seq<T>, ys: seq<T>)
    ensures AddAll(s, xs + ys) == AddAll(AddAll(s, xs), ys)
    decreases |xs|
  {
    if |xs| != 0 {
      assert (xs + ys)[0] == xs[0];
      assert (xs + ys)[1..] == xs[1..] + ys;
      AddAllConcat(Add(s, xs[0]), xs[1..], ys);
    } else {
      assert xs + ys == ys;
    }
  }

  /** Appending one more element to one side of a split keeps it a split of
      the whole list with that element appended. */
  lemma SplitSnoc<T>(left: seq<T>, right: seq<T>, whole: seq<T>, x: T, toLeft: bool)
    requires multiset(left) + multiset(right) == multiset(whole)
    ensures toLeft ==> multiset(left + [x]) + multiset(right) == multiset(whole + [x])
    ensures !toLeft ==> multiset(left) + multiset(right + [x]) == multiset(whole + [x])
  {
  }
}
