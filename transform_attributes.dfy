/**
 * The attributes of the `<script>` element that `transform`
 * (`src/core/transform.ts`) writes: the two blocks' attribute objects spread
 * into one, `setup` deleted, and each entry rendered as `key="value"` or a bare
 * `key`, joined by single spaces.
 */
module TransformAttributes {
  import opened Js

  /** Spreading `source` into `target`: `{ ...target, ...source }`. */
  function Spread(target: Record, source: Record): (r: Record)
    ensures UniqueKeys(target) ==> UniqueKeys(r)
  {
    if |source| == 0 then target
    else
      var e := source[|source| - 1];
      Put(Spread(target, source[..|source| - 1]), e.0, e.1)
  }

  lemma {:induction false} GetAppend(r: Record, k: string, v: string, j: string)
    ensures Get(r + [(k, v)], j) == if HasKey(r, j) then Get(r, j) else if j == k then Some(v) else None
  {
    if |r| != 0 {
      assert (r + [(k, v)])[1..] == r[1..] + [(k, v)];
      GetAppend(r[1..], k, v, j);
      if r[0].0 != j && HasKey(r, j) {
        var i :| 0 <= i < |r| && r[i].0 == j;
        assert r[1..][i - 1].0 == j;
      }
    }
  }

  /** A property read after spreading finds the source's value, or else the
      target's. */
  lemma {:induction false} GetSpread(target: Record, source: Record, k: string)
    requires UniqueKeys(source)
    ensures Get(Spread(target, source), k) == if HasKey(source, k) then Get(source, k) else Get(target, k)
  {
    if |source| != 0 {
      var init, e := source[..|source| - 1], source[|source| - 1];
      assert source == init + [e];
      GetSpread(target, init, k);
      GetPut(Spread(target, init), e.0, e.1, k);
      GetAppend(init, e.0, e.1, k);
      if k == e.0 {
        assert !HasKey(init, k) by {
          forall i | 0 <= i < |init|
            ensures init[i].0 != k
          {
            assert init[i] == source[i];
          }
        }
        assert source[|source| - 1].0 == k;
      } else {
        assert HasKey(source, k) == HasKey(init, k) by {
          if HasKey(source, k) {
            var i :| 0 <= i < |source| && source[i].0 == k;
            assert init[i] == source[i];
          }
          if HasKey(init, k) {
            var i :| 0 <= i < |init| && init[i].0 == k;
            assert init[i] == source[i];
          }
        }
      }
    }
  }

  lemma {:induction false} GetDelete(r: Record, k: string, j: string)
    requires j != k
    ensures Get(Delete(r, k), j) == Get(r, j)
  {
    if |r| != 0 {
      GetDelete(r[1..], k, j);
    }
  }

  /** The attributes of the new block: the plain script's, overridden by the
      setup script's, without `setup`. */
  function MergedAttributes(script: Record, setup: Record): (r: Record)
    ensures !HasKey(r, "setup")
    ensures UniqueKeys(script) && UniqueKeys(setup) ==> UniqueKeys(r)
  {
    Delete(Spread(Spread([], script), setup), "setup")
  }

  /** Every attribute other than `setup` takes the setup script's value when it
      has one, and the plain script's otherwise. */
  lemma MergedAttributesOverride(script: Record, setup: Record, k: string)
    requires UniqueKeys(script) && UniqueKeys(setup) && k != "setup"
    ensures Get(MergedAttributes(script, setup), k) == if HasKey(setup, k) then Get(setup, k) else Get(script, k)
  {
    GetDelete(Spread(Spread([], script), setup), "setup", k);
    GetSpread(Spread([], script), setup, k);
    GetSpread([], script, k);
  }

  /** `value ? key="value" : key` */
  function RenderAttribute(key: string, value: string): string
  {
    if value != "" then key + "=\"" + value + "\"" else key
  }

  /** `parts.join(' ')` */
  function JoinSpaces(parts: seq<string>): string
  {
    if |parts| == 0 then ""
    else if |parts| == 1 then parts[0]
    else JoinSpaces(parts[..|parts| - 1]) + " " + parts[|parts| - 1]
  }

  /** `str.split(' ')` */
  function SplitSpaces(s: string): (r: seq<string>)
    ensures |r| > 0
  {
    if |s| == 0 then [""]
    else
      var init := SplitSpaces(s[..|s| - 1]);
      if s[|s| - 1] == ' ' then init + [""]
      else init[..|init| - 1] + [init[|init| - 1] + [s[|s| - 1]]]
  }

  predicate NoSpace(s: string)
  {
    forall i :: 0 <= i < |s| ==> s[i] != ' '
  }

  /** Splitting a text followed by a space and a word yields the text's pieces
      followed by the word. */
  lemma {:induction false} SplitAfterSpace(x: string, p: string)
    requires NoSpace(p)
    ensures SplitSpaces(x + " " + p) == SplitSpaces(x) + [p]
    decreases |p|
  {
    if |p| == 0 {
      assert x + " " + p == x + " ";
      assert (x + " ")[..|x + " "| - 1] == x;
    } else {
      var p', c := p[..|p| - 1], p[|p| - 1];
      SplitAfterSpace(x, p');
      var s := x + " " + p;
      assert s[..|s| - 1] == x + " " + p';
      assert p' + [c] == p;
    }
  }

  /** A word without spaces splits to itself. */
  lemma {:induction false} SplitWord(p: string)
    requires NoSpace(p)
    ensures SplitSpaces(p) == [p]
    decreases |p|
  {
    if |p| != 0 {
      SplitWord(p[..|p| - 1]);
      assert p[..|p| - 1] + [p[|p| - 1]] == p;
    }
  }

  /** Joining words that hold no space and splitting again gives the words back. */
  lemma {:induction false} SplitJoin(parts: seq<string>)
    requires |parts| > 0
    requires forall i :: 0 <= i < |parts| ==> NoSpace(parts[i])
    ensures SplitSpaces(JoinSpaces(parts)) == parts
  {
    if |parts| == 1 {
      SplitWord(parts[0]);
    } else {
      var init := parts[..|parts| - 1];
      SplitJoin(init);
      SplitAfterSpace(JoinSpaces(init), parts[|parts| - 1]);
      assert init + [parts[|parts| - 1]] == parts;
    }
  }

  /** The rendered attribute list: one `key="value"` or bare `key` per attribute. */
  function RenderedAttributes(attrs: Record): string
  {
    JoinSpaces(seq(|attrs|, i requires 0 <= i < |attrs| => RenderAttribute(attrs[i].0, attrs[i].1)))
  }

  /** When no key or value holds a space, the attribute list splits back into
      one rendered attribute per entry, in order. */
  lemma RenderedAttributesSplit(attrs: Record)
    requires |attrs| > 0
    requires forall i :: 0 <= i < |attrs| ==> NoSpace(attrs[i].0) && NoSpace(attrs[i].1)
    ensures var parts := SplitSpaces(RenderedAttributes(attrs));
      && |parts| == |attrs|
      && forall i :: 0 <= i < |attrs| ==> parts[i] == RenderAttribute(attrs[i].0, attrs[i].1)
  {
    var rendered := seq(|attrs|, i requires 0 <= i < |attrs| => RenderAttribute(attrs[i].0, attrs[i].1));
    forall i | 0 <= i < |attrs|
      ensures NoSpace(rendered[i])
    {
      var k, v := attrs[i].0, attrs[i].1;
      if v != "" {
        var w := k + "=\"" + v + "\"";
        forall j | 0 <= j < |w|
          ensures w[j] != ' '
        {
          if j >= |k| + 2 && j < |k| + 2 + |v| {
            assert w[j] == v[j - |k| - 2];
          }
        }
      }
    }
    SplitJoin(rendered);
  }

  /** The new `<script>` element. */
  function Block(attr: string, code: string): string
  {
    "<script " + attr + ">\n" + code + "\n</script>"
  }
}
