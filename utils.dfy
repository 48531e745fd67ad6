/**
 * String helpers of the transform (`src/core/utils.ts`) together with the two
 * `@vue/shared` functions they are built from, `camelize` and `capitalize`.
 */
module Utils {
  import opened Js

  /** `camelize`: every `-` followed by a `\w` character is dropped and that
      character upper-cased, scanning left to right without overlap. */
  function Camelize(s: string): (r: string)
    ensures |r| <= |s|
    decreases |s|
  {
    if |s| == 0 then ""
    else if |s| >= 2 && s[0] == '-' && IsWordChar(s[1]) then [ToUpper(s[1])] + Camelize(s[2..])
    else [s[0]] + Camelize(s[1..])
  }

  /** `capitalize`: the first character upper-cased, the rest unchanged. */
  function Capitalize(s: string): (r: string)
    ensures |r| == |s|
    ensures |s| > 0 ==> r[0] == ToUpper(s[0]) && r[1..] == s[1..]
  {
    if |s| == 0 then "" else [ToUpper(s[0])] + s[1..]
  }

  /** `pascalize(str) = capitalize(camelize(str))`. */
  function Pascalize(s: string): (r: string)
    ensures |r| <= |s|
  {
    Capitalize(Camelize(s))
  }

  /** `isNotNil(v)`: the loose test `v != null`. */
  predicate IsNotNil<T>(v: Nullable<T>)
  {
    !(v.Null? || v.Undefined?)
  }

  /** `xs.filter(isNotNil)`. */
  function FilterNotNil<T>(xs: seq<Nullable<T>>): (r: seq<T>)
    ensures |r| <= |xs|
  {
    if |xs| == 0 then []
    else if IsNotNil(xs[0]) then [xs[0].value] + FilterNotNil(xs[1..])
    else FilterNotNil(xs[1..])
  }

  /** Lifts a list of present values into a list of nullable ones. */
  function Present<T>(xs: seq<T>): (r: seq<Nullable<T>>)
    ensures |r| == |xs|
    ensures forall i :: 0 <= i < |xs| ==> r[i] == Value(xs[i])
  {
    seq(|xs|, i requires 0 <= i < |xs| => Value(xs[i]))
  }

  /** `isNotNil` is false exactly on `null` and `undefined`. */
  lemma IsNotNilExactly<T>(v: Nullable<T>)
    ensures !IsNotNil(v) <==> v == Null || v == Undefined
    ensures IsNotNil(v) <==> exists x :: v == Value(x)
  {
    if IsNotNil(v) {
      assert v == Value(v.value);
    }
  }

  /** Filtering keeps exactly the non-nil values. */
  lemma {:induction false} FilterNotNilMembers<T>(xs: seq<Nullable<T>>, x: T)
    ensures x in FilterNotNil(xs) <==> Value(x) in xs
  {
    if |xs| != 0 {
      FilterNotNilMembers(xs[1..], x);
      assert xs == [xs[0]] + xs[1..];
    }
  }

  /** Filtering distributes over concatenation, so the kept values stay in order. */
  lemma {:induction false} FilterNotNilConcat<T>(xs: seq<Nullable<T>>, ys: seq<Nullable<T>>)
    ensures FilterNotNil(xs + ys) == FilterNotNil(xs) + FilterNotNil(ys)
  {
    if |xs| == 0 {
      assert xs + ys == ys;
    } else {
      assert (xs + ys)[0] == xs[0];
      assert (xs + ys)[1..] == xs[1..] + ys;
      FilterNotNilConcat(xs[1..], ys);
    }
  }

  /** A list of present values passes the filter unchanged. */
  lemma {:induction false} FilterNotNilPresent<T>(xs: seq<T>)
    ensures FilterNotNil(Present(xs)) == xs
  {
    if |xs| != 0 {
      assert Present(xs)[1..] == Present(xs[1..]);
      FilterNotNilPresent(xs[1..]);
    }
  }

  /** A string without hyphens is left alone by `camelize`. */
  lemma {:induction false} CamelizeWithoutHyphen(s: string)
    requires '-' !in s
    ensures Camelize(s) == s
  {
    if |s| != 0 {
      assert '-' !in s[1..] by {
        forall i | 0 <= i < |s[1..]| ensures s[1..][i] != '-' { assert s[1..][i] == s[i + 1]; }
      }
      CamelizeWithoutHyphen(s[1..]);
    }
  }

  /** A name that has no hyphen and does not start with a lower-case letter is
      its own pascal case, so declared `DynamicStyle` matches tag `DynamicStyle`. */
  lemma PascalizeFixedPoint(s: string)
    requires '-' !in s
    requires |s| == 0 || !IsLower(s[0])
    ensures Pascalize(s) == s
  {
    CamelizeWithoutHyphen(s);
    if |s| != 0 {
      assert s == [s[0]] + s[1..];
    }
  }

  lemma CamelizeStyle(s: string)
    requires s == "-style"
    ensures Camelize(s) == "Style"
  {
    assert s[0] == '-' && IsWordChar(s[1]);
    assert s[2..] == "tyle";
    CamelizeWithoutHyphen("tyle");
  }

  /** One hyphen before a word character, between hyphen-free words, is
      dropped and that character upper-cased. */
  lemma CamelizeOneHyphen(p: string, c: char, q: string)
    requires '-' !in p && '-' !in q && IsWordChar(c)
    ensures Camelize(p + ['-', c] + q) == p + [ToUpper(c)] + q
  {
    var s := ['-', c] + q;
    assert p + ['-', c] + q == p + s;
    CamelizePrefix(p, s);
    assert s[2..] == q;
    CamelizeWithoutHyphen(q);
  }

  /** A kebab-case tag with one hyphen, such as `dynamic-style`, pascalizes to
      its words capitalised and joined (`DynamicStyle`). */
  lemma PascalizeOneHyphen(p: string, c: char, q: string)
    requires |p| > 0 && '-' !in p && '-' !in q && IsWordChar(c)
    ensures Pascalize(p + ['-', c] + q) == [ToUpper(p[0])] + p[1..] + [ToUpper(c)] + q
  {
    var r := p + [ToUpper(c)] + q;
    CamelizeOneHyphen(p, c, q);
    assert r[0] == p[0];
    assert r[1..] == p[1..] + [ToUpper(c)] + q;
    var u := Capitalize(r);
    assert u == [u[0]] + u[1..];
  }

  /** A hyphen-free prefix is copied through by `camelize`. */
  lemma {:induction false} CamelizePrefix(p: string, s: string)
    requires '-' !in p
    ensures Camelize(p + s) == p + Camelize(s)
  {
    if |p| != 0 {
      assert (p + s)[1..] == p[1..] + s;
      assert '-' !in p[1..] by {
        forall i | 0 <= i < |p[1..]| ensures p[1..][i] != '-' { assert p[1..][i] == p[i + 1]; }
      }
      CamelizePrefix(p[1..], s);
    } else {
      assert p + s == s;
    }
  }
}
