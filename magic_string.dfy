/**
 * The part of MagicString that `transform` uses: a string whose characters can
 * be removed, overwritten and have text inserted to their left, then rendered.
 *
 * The library keeps a chain of chunks, each with an intro, its content and an
 * outro. The model keeps the same information per original character: the
 * current content of character `i` and the outro attached after it. Text that
 * `prependLeft` puts at offset `i > 0` goes to the outro of character `i - 1`;
 * at offset 0 (or past the end) it goes to the string's intro.
 */
module MagicStrings {
  import opened Errors

  datatype Layout = Layout(intro: string, chars: seq<string>, outros: seq<string>)

  /** `n` empty strings. */
  function Empties(n: nat): (r: seq<string>)
    ensures |r| == n && forall i :: 0 <= i < n ==> r[i] == ""
  {
    seq(n, i => "")
  }

  /** One piece per character of `s`, each the character itself. */
  function Chars(s: string): (r: seq<string>)
    ensures |r| == |s| && forall i :: 0 <= i < |s| ==> r[i] == [s[i]]
  {
    seq(|s|, i requires 0 <= i < |s| => [s[i]])
  }

  /** `content + outro` of every character, in order. */
  function Pairs(chars: seq<string>, outros: seq<string>): string
    requires |chars| == |outros|
  {
    if |chars| == 0 then ""
    else Pairs(chars[..|chars| - 1], outros[..|chars| - 1]) + chars[|chars| - 1] + outros[|chars| - 1]
  }

  /** `s.toString()`: the intro, then every character's content and outro. */
  function Text(l: Layout): string
    requires |l.chars| == |l.outros|
  {
    l.intro + Pairs(l.chars, l.outros)
  }

  /** The rendering of the characters `x` to `y`. */
  function Segment(chars: seq<string>, outros: seq<string>, x: nat, y: nat): string
    requires |chars| == |outros| && x <= y <= |chars|
  {
    Pairs(chars[x..y], outros[x..y])
  }

  /** `new MagicString(s)`: every character renders as itself. */
  function Initial(s: string): (l: Layout)
    ensures l.intro == "" && |l.chars| == |l.outros| == |s|
    ensures forall i :: 0 <= i < |s| ==> l.chars[i] == [s[i]] && l.outros[i] == ""
  {
    Layout("", Chars(s), Empties(|s|))
  }

  /** Blanks the content and the outro of the characters `start` to `end`. */
  function Cleared(xs: seq<string>, start: nat, end: nat): (r: seq<string>)
    requires start <= end <= |xs|
    ensures |r| == |xs|
    ensures forall i :: 0 <= i < |xs| ==> r[i] == if start <= i < end then "" else xs[i]
  {
    xs[..start] + Empties(end - start) + xs[end..]
  }

  /** `s.remove(start, end)`: an empty range changes nothing; otherwise the range
      must lie inside the string and run forwards, and every chunk in it loses its
      content and its outro. */
  function RemoveSpec(l: Layout, start: nat, end: nat): (r: Result<Layout>)
    requires |l.chars| == |l.outros|
    ensures r.Err? <==> start != end && (end > |l.chars| || start > end)
    ensures r.Err? ==> r.error == if end > |l.chars| then OutOfBounds else ReversedRange
    ensures r.Ok? ==> r.value.intro == l.intro && |r.value.chars| == |r.value.outros| == |l.chars|
    ensures r.Ok? ==> forall i :: 0 <= i < |l.chars| ==>
      && r.value.chars[i] == (if start <= i < end then "" else l.chars[i])
      && r.value.outros[i] == (if start <= i < end then "" else l.outros[i])
  {
    if start == end then Ok(l)
    else if end > |l.chars| then Err(OutOfBounds)
    else if start > end then Err(ReversedRange)
    else Ok(Layout(l.intro, Cleared(l.chars, start, end), Cleared(l.outros, start, end)))
  }

  /** `s.overwrite(start, end, content)`: the range must lie inside the string and
      be non-empty; its first chunk takes `content`, the rest is emptied, and the
      outros inside the range are dropped. */
  function OverwriteSpec(l: Layout, start: nat, end: nat, content: string): (r: Result<Layout>)
    requires |l.chars| == |l.outros|
    ensures r.Err? <==> end > |l.chars| || start >= end
    ensures r.Err? ==>
      r.error == if end > |l.chars| then EndOutOfBounds else if start == end then ZeroLengthOverwrite else ReversedRange
    ensures r.Ok? ==> r.value.intro == l.intro && |r.value.chars| == |r.value.outros| == |l.chars|
    ensures r.Ok? ==> forall i :: 0 <= i < |l.chars| ==>
      && r.value.chars[i] == (if i == start then content else if start < i < end then "" else l.chars[i])
      && r.value.outros[i] == (if start <= i < end then "" else l.outros[i])
  {
    if end > |l.chars| then Err(EndOutOfBounds)
    else if start == end then Err(ZeroLengthOverwrite)
    else if start > end then Err(ReversedRange)
    else Ok(Layout(l.intro, Cleared(l.chars, start, end)[start := content], Cleared(l.outros, start, end)))
  }

  /** `s.prependLeft(index, content)`: `content` goes in front of whatever was
      already inserted left of `index`. */
  function PrependLeftSpec(l: Layout, index: nat, content: string): (r: Layout)
    requires |l.chars| == |l.outros|
    ensures r.chars == l.chars && |r.outros| == |l.outros|
    ensures 0 < index <= |l.chars| ==> r.intro == l.intro
    ensures !(0 < index <= |l.chars|) ==> r.intro == content + l.intro
    ensures forall i :: 0 <= i < |l.outros| ==>
      r.outros[i] == if i == index - 1 then content + l.outros[i] else l.outros[i]
  {
    if 0 < index <= |l.chars| then l.(outros := l.outros[index - 1 := content + l.outros[index - 1]])
    else l.(intro := content + l.intro)
  }

  /* ---------- rendering ---------- */

  lemma {:induction false} PairsConcat(c1: seq<string>, o1: seq<string>, c2: seq<string>, o2: seq<string>)
    requires |c1| == |o1| && |c2| == |o2|
    ensures Pairs(c1 + c2, o1 + o2) == Pairs(c1, o1) + Pairs(c2, o2)
  {
    if |c2| == 0 {
      assert c1 + c2 == c1 && o1 + o2 == o1;
    } else {
      var k := |c2| - 1;
      PairsConcat(c1, o1, c2[..k], o2[..k]);
      assert (c1 + c2)[..|c1 + c2| - 1] == c1 + c2[..k];
      assert (o1 + o2)[..|o1 + o2| - 1] == o1 + o2[..k];
    }
  }

  /** The rendering of a range is the rendering of its two halves. */
  lemma SegmentSplit(chars: seq<string>, outros: seq<string>, x: nat, y: nat, z: nat)
    requires |chars| == |outros| && x <= y <= z <= |chars|
    ensures Segment(chars, outros, x, z) == Segment(chars, outros, x, y) + Segment(chars, outros, y, z)
  {
    assert chars[x..z] == chars[x..y] + chars[y..z];
    assert outros[x..z] == outros[x..y] + outros[y..z];
    PairsConcat(chars[x..y], outros[x..y], chars[y..z], outros[y..z]);
  }

  /** One character renders as its content followed by its outro. */
  lemma SegmentOne(chars: seq<string>, outros: seq<string>, x: nat)
    requires |chars| == |outros| && x < |chars|
    ensures Segment(chars, outros, x, x + 1) == chars[x] + outros[x]
  {
    var none: seq<string> := [];
    assert chars[x..x + 1] == [chars[x]] && outros[x..x + 1] == [outros[x]];
    assert [chars[x]][..0] == none && [outros[x]][..0] == none;
    assert Pairs([chars[x]], [outros[x]]) == Pairs(none, none) + chars[x] + outros[x];
  }

  /** Characters that still hold their original text and no outro render as
      that text. */
  lemma {:induction false} SegmentKept(chars: seq<string>, outros: seq<string>, s: string, x: nat, y: nat)
    requires |chars| == |outros| && x <= y <= |chars| && y <= |s|
    requires forall i :: x <= i < y ==> chars[i] == [s[i]] && outros[i] == ""
    ensures Segment(chars, outros, x, y) == s[x..y]
    decreases y - x
  {
    if x < y {
      SegmentKept(chars, outros, s, x, y - 1);
      SegmentSplit(chars, outros, x, y - 1, y);
      SegmentOne(chars, outros, y - 1);
      assert s[x..y] == s[x..y - 1] + [s[y - 1]];
    }
  }

  /** Characters emptied together with their outros render as nothing. */
  lemma {:induction false} SegmentDropped(chars: seq<string>, outros: seq<string>, x: nat, y: nat)
    requires |chars| == |outros| && x <= y <= |chars|
    requires forall i :: x <= i < y ==> chars[i] == "" && outros[i] == ""
    ensures Segment(chars, outros, x, y) == ""
    decreases y - x
  {
    if x < y {
      SegmentDropped(chars, outros, x, y - 1);
      SegmentSplit(chars, outros, x, y - 1, y);
      SegmentOne(chars, outros, y - 1);
    }
  }

  lemma SegmentAll(chars: seq<string>, outros: seq<string>)
    requires |chars| == |outros|
    ensures Segment(chars, outros, 0, |chars|) == Pairs(chars, outros)
  {
    assert chars[0..|chars|] == chars && outros[0..|outros|] == outros;
  }

  /** The pieces of an edited range: its first character holds `content`, the
      others nothing, and no outro is left. */
  predicate EditedAt(c: seq<string>, o: seq<string>, i: nat, p: nat, q: nat, content: string)
    requires |c| == |o| && i < |c|
  {
    o[i] == "" && c[i] == if i == p then content else ""
  }

  /** An edited range renders as its content, or as nothing when it is empty. */
  lemma RangeRendered(c: seq<string>, o: seq<string>, p: nat, q: nat, content: string)
    requires |c| == |o| && p <= q <= |c|
    requires forall i :: p <= i < q ==> EditedAt(c, o, i, p, q, content)
    ensures Segment(c, o, p, q) == if p < q then content else ""
  {
    if p < q {
      assert EditedAt(c, o, p, p, q, content);
      SegmentOne(c, o, p);
      forall i | p + 1 <= i < q
        ensures c[i] == "" && o[i] == ""
      {
        assert EditedAt(c, o, i, p, q, content);
      }
      SegmentDropped(c, o, p + 1, q);
      SegmentSplit(c, o, p, p + 1, q);
    } else {
      var none: seq<string> := [];
      assert c[p..q] == none && o[p..q] == none;
    }
  }

  /** The pieces of a string in which the ranges `p..q` and `u..v` were edited
      to `P` and `U`; every other character is untouched. */
  predicate TwoEdits(c: seq<string>, o: seq<string>, s: string, p: nat, q: nat, P: string, u: nat, v: nat, U: string)
  {
    && |c| == |o| == |s|
    && p <= q <= u <= v <= |s|
    && (forall i :: 0 <= i < |s| && (i < p || q <= i < u || v <= i) ==> c[i] == [s[i]] && o[i] == "")
    && (forall i :: p <= i < q ==> EditedAt(c, o, i, p, q, P))
    && (forall i :: u <= i < v ==> EditedAt(c, o, i, u, v, U))
  }

  /** Rendering after two edits: the untouched text, in order, with each
      non-empty edited range replaced by its content. */
  lemma TwoEditsRendered(c: seq<string>, o: seq<string>, s: string, p: nat, q: nat, P: string, u: nat, v: nat, U: string)
    requires TwoEdits(c, o, s, p, q, P, u, v, U)
    ensures Pairs(c, o) ==
      s[..p] + ((if p < q then P else "") + (s[q..u] + ((if u < v then U else "") + s[v..])))
  {
    SegmentKept(c, o, s, 0, p);
    RangeRendered(c, o, p, q, P);
    SegmentKept(c, o, s, q, u);
    RangeRendered(c, o, u, v, U);
    SegmentKept(c, o, s, v, |s|);
    FiveSegments(c, o, p, q, u, v);
    assert s[0..p] == s[..p] && s[v..|s|] == s[v..];
  }

  /** The rendering of the whole string from the renderings of five
      consecutive ranges. */
  lemma FiveSegments(c: seq<string>, o: seq<string>, p: nat, q: nat, u: nat, v: nat)
    requires |c| == |o| && p <= q <= u <= v <= |c|
    ensures Pairs(c, o) == Segment(c, o, 0, p) + (Segment(c, o, p, q) + (Segment(c, o, q, u)
      + (Segment(c, o, u, v) + Segment(c, o, v, |c|))))
  {
    SegmentSplit(c, o, 0, p, |c|);
    SegmentSplit(c, o, p, q, |c|);
    SegmentSplit(c, o, q, u, |c|);
    SegmentSplit(c, o, u, v, |c|);
    SegmentAll(c, o);
  }

  /** A fresh string renders as the original text. */
  lemma InitialText(s: string)
    ensures Text(Initial(s)) == s
  {
    var l := Initial(s);
    SegmentKept(l.chars, l.outros, s, 0, |s|);
    SegmentAll(l.chars, l.outros);
    assert s[0..|s|] == s;
  }

  lemma EmptyTail(s: string, k: nat)
    requires k <= |s|
    ensures s[k..|s|] + ("" + s[|s|..]) == s[k..]
  {
    assert s[|s|..] == "";
  }

  /** Removing a range of a fresh string deletes exactly those characters. */
  lemma RemoveDeletes(s: string, start: nat, end: nat)
    requires start <= end <= |s|
    ensures RemoveSpec(Initial(s), start, end).Ok?
    ensures Text(RemoveSpec(Initial(s), start, end).value) == s[..start] + s[end..]
  {
    var l := RemoveSpec(Initial(s), start, end).value;
    assert TwoEdits(l.chars, l.outros, s, start, end, "", |s|, |s|, "");
    TwoEditsRendered(l.chars, l.outros, s, start, end, "", |s|, |s|, "");
    EmptyTail(s, end);
  }

  /** Overwriting a non-empty range of a fresh string replaces exactly those
      characters. */
  lemma OverwriteReplaces(s: string, start: nat, end: nat, content: string)
    requires start < end <= |s|
    ensures OverwriteSpec(Initial(s), start, end, content).Ok?
    ensures Text(OverwriteSpec(Initial(s), start, end, content).value) == s[..start] + (content + s[end..])
  {
    var l := OverwriteSpec(Initial(s), start, end, content).value;
    OverwriteEdits(s, start, end, content);
    TwoEditsRendered(l.chars, l.outros, s, start, end, content, |s|, |s|, "");
    EmptyTail(s, end);
  }

  lemma OverwriteEdits(s: string, start: nat, end: nat, content: string)
    requires start < end <= |s|
    ensures var l := OverwriteSpec(Initial(s), start, end, content).value;
      TwoEdits(l.chars, l.outros, s, start, end, content, |s|, |s|, "")
  {
    var l := OverwriteSpec(Initial(s), start, end, content).value;
    forall i | start <= i < end
      ensures EditedAt(l.chars, l.outros, i, start, end, content)
    {
    }
  }

  /** The rendering of the whole string from those of three consecutive ranges. */
  lemma ThreeSegments(c: seq<string>, o: seq<string>, k: nat, A: string, B: string, C: string)
    requires |c| == |o| && k < |c|
    requires Segment(c, o, 0, k) == A && Segment(c, o, k, k + 1) == B && Segment(c, o, k + 1, |c|) == C
    ensures Pairs(c, o) == A + (B + C)
  {
    SegmentSplit(c, o, 0, k, |c|);
    SegmentSplit(c, o, k, k + 1, |c|);
    SegmentAll(c, o);
  }

  lemma RegroupAt(s: string, k: nat, content: string)
    requires k < |s|
    ensures s[0..k] + (([s[k]] + content) + s[k + 1..|s|]) == s[..k + 1] + (content + s[k + 1..])
  {
    assert s[..k + 1] == s[0..k] + [s[k]];
    assert s[k + 1..|s|] == s[k + 1..];
  }

  /** Text inserted after the character `k` of otherwise untouched pieces. */
  lemma OutroRendered(c: seq<string>, o: seq<string>, s: string, k: nat, content: string)
    requires |c| == |o| == |s| && k < |s|
    requires forall i :: 0 <= i < |s| ==> c[i] == [s[i]] && o[i] == if i == k then content else ""
    ensures Pairs(c, o) == s[..k + 1] + (content + s[k + 1..])
  {
    SegmentKept(c, o, s, 0, k);
    SegmentOne(c, o, k);
    SegmentKept(c, o, s, k + 1, |s|);
    ThreeSegments(c, o, k, s[0..k], [s[k]] + content, s[k + 1..|s|]);
    RegroupAt(s, k, content);
  }

  /** Prepending at an offset of a fresh string inserts the text there; past the
      end it lands in front of everything. */
  lemma PrependLeftInserts(s: string, index: nat, content: string)
    ensures Text(PrependLeftSpec(Initial(s), index, content)) ==
      if 0 < index <= |s| then s[..index] + (content + s[index..]) else content + s
  {
    if 0 < index <= |s| {
      PrependInside(s, index, content);
    } else {
      PrependInFront(s, index, content);
    }
  }

  lemma PrependInside(s: string, index: nat, content: string)
    requires 0 < index <= |s|
    ensures Text(PrependLeftSpec(Initial(s), index, content)) == s[..index] + (content + s[index..])
  {
    var l := PrependLeftSpec(Initial(s), index, content);
    OutroRendered(l.chars, l.outros, s, index - 1, content);
  }

  lemma PrependInFront(s: string, index: nat, content: string)
    requires !(0 < index <= |s|)
    ensures Text(PrependLeftSpec(Initial(s), index, content)) == content + s
  {
    var l0 := Initial(s);
    assert PrependLeftSpec(l0, index, content) == l0.(intro := content);
    InitialText(s);
  }

  /* ---------- the mutable string ---------- */

  class MagicString {
    const original: string
    var intro: string
    var chars: seq<string>
    var outros: seq<string>

    ghost predicate Valid()
      reads this
    {
      |chars| == |outros| == |original|
    }

    function Current(): Layout
      reads this
    {
      Layout(intro, chars, outros)
    }

    constructor (s: string)
      ensures Valid() && original == s && Current() == Initial(s)
    {
      original, intro, chars, outros := s, "", Chars(s), Empties(|s|);
    }

    /** `s.toString()` */
    function ToString(): (r: string)
      requires Valid()
      reads this
      ensures r == Text(Current())
    {
      intro + Pairs(chars, outros)
    }

    /** `s.remove(start, end)`; an error leaves the string as it was. */
    method Remove(start: nat, end: nat) returns (r: Result<()>)
      requires Valid()
      modifies this
      ensures Valid()
      ensures var e := RemoveSpec(old(Current()), start, end);
        && (e.Ok? ==> r.Ok? && Current() == e.value)
        && (e.Err? ==> r == Err(e.error) && Current() == old(Current()))
    {
      if start == end {
        return Ok(());
      }
      if end > |original| {
        return Err(OutOfBounds);
      }
      if start > end {
        return Err(ReversedRange);
      }
      chars := Cleared(chars, start, end);
      outros := Cleared(outros, start, end);
      r := Ok(());
    }

    /** `s.overwrite(start, end, content)`; an error leaves the string as it was. */
    method Overwrite(start: nat, end: nat, content: string) returns (r: Result<()>)
      requires Valid()
      modifies this
      ensures Valid()
      ensures var e := OverwriteSpec(old(Current()), start, end, content);
        && (e.Ok? ==> r.Ok? && Current() == e.value)
        && (e.Err? ==> r == Err(e.error) && Current() == old(Current()))
    {
      if end > |original| {
        return Err(EndOutOfBounds);
      }
      if start == end {
        return Err(ZeroLengthOverwrite);
      }
      if start > end {
        return Err(ReversedRange);
      }
      chars := Cleared(chars, start, end)[start := content];
      outros := Cleared(outros, start, end);
      r := Ok(());
    }

    /** `s.prependLeft(index, content)` */
    method PrependLeft(index: nat, content: string)
      requires Valid()
      modifies this
      ensures Valid()
      ensures Current() == PrependLeftSpec(old(Current()), index, content)
    {
      if 0 < index <= |original| {
        outros := outros[index - 1 := content + outros[index - 1]];
      } else {
        intro := content + intro;
      }
    }
  }
}
