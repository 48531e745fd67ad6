// Comment blanking in `parseSFC` (`src/core/parseSFC.ts`): before the text is
// tokenised, every block comment (slash, star, white space, ..., star, slash)
// and then every line comment (two slashes, white space, ...) is replaced by
// as many spaces as it has characters, so that the tag offsets found in the
// blanked text index the original text. Each pass is a global
// `String.prototype.replace`: it scans left to right, replaces a match and
// resumes after it, or moves on by one character.
module Comments {
  import opened Js

  // The block-comment opener (slash, star, white space) is at `i`.
  predicate BlockOpensAt(s: string, i: nat)
  {
    i + 3 <= |s| && s[i] == '/' && s[i + 1] == '*' && IsSpace(s[i + 2])
  }

  // The line-comment opener (slash, slash, white space) is at `i`.
  predicate LineOpensAt(s: string, i: nat)
  {
    i + 3 <= |s| && s[i] == '/' && s[i + 1] == '/' && IsSpace(s[i + 2])
  }

  /** Every character is the original one or a space. */
  predicate Blanked(r: string, s: string)
  {
    |r| == |s| && forall i :: 0 <= i < |s| ==> r[i] == s[i] || r[i] == ' '
  }

  // The block-comment pass from offset `i` on: the closing star-slash is the
  // first one after the opener that no U+2028/U+2029 precedes (`.` refuses
  // those two and `[\r\n]` does not add them back).
  function BlockFrom(s: string, i: nat): (r: string)
    requires i <= |s|
    ensures |r| == |s| - i
    decreases |s| - i
  {
    if i == |s| then ""
    else if BlockOpensAt(s, i) && FindPair(s, i + 3, '*', '/', true).Some? then
      var k := FindPair(s, i + 3, '*', '/', true).value;
      Spaces(k + 2 - i) + BlockFrom(s, k + 2)
    else [s[i]] + BlockFrom(s, i + 1)
  }

  /** The end of `.*` started at `j`: the first line terminator, or the end. */
  function LineEnd(s: string, j: nat): (e: nat)
    requires j <= |s|
    ensures j <= e <= |s|
    ensures NoLineTerminator(s[j..e])
    ensures e < |s| ==> IsLineTerminator(s[e])
    decreases |s| - j
  {
    if j == |s| || IsLineTerminator(s[j]) then j else LineEnd(s, j + 1)
  }

  // The line-comment pass from offset `i` on. The white-space character after
  // the two slashes may be a line break, in which case the comment runs on to
  // the end of the next line.
  function LineFrom(s: string, i: nat): (r: string)
    requires i <= |s|
    ensures |r| == |s| - i
    decreases |s| - i
  {
    if i == |s| then ""
    else if LineOpensAt(s, i) then
      var e := LineEnd(s, i + 3);
      Spaces(e - i) + LineFrom(s, e)
    else [s[i]] + LineFrom(s, i + 1)
  }

  /** The text the tag tokenizer reads. */
  function StripComments(code: string): (r: string)
    ensures Blanked(r, code)
  {
    BlockFromBlanked(code, 0);
    var once := BlockFrom(code, 0);
    LineFromBlanked(once, 0);
    BlankedTransitive(LineFrom(once, 0), once, code);
    LineFrom(once, 0)
  }

  lemma BlankedTransitive(r: string, t: string, s: string)
    requires Blanked(r, t) && Blanked(t, s)
    ensures Blanked(r, s)
  {
  }

  lemma {:induction false} BlockFromBlanked(s: string, i: nat)
    requires i <= |s|
    ensures Blanked(BlockFrom(s, i), s[i..])
    decreases |s| - i
  {
    if i < |s| {
      var piece, next := BlockStep(s, i);
      BlockFromBlanked(s, next);
      BlankedConcat(piece, BlockFrom(s, next), s, i, next);
    }
  }

  /** One step of the block-comment pass: a blanked comment or one character. */
  lemma BlockStep(s: string, i: nat) returns (piece: string, next: nat)
    requires i < |s|
    ensures i < next <= |s|
    ensures BlockFrom(s, i) == piece + BlockFrom(s, next)
    ensures Blanked(piece, s[i..next])
  {
    if BlockOpensAt(s, i) && FindPair(s, i + 3, '*', '/', true).Some? {
      next := FindPair(s, i + 3, '*', '/', true).value + 2;
      piece := Spaces(next - i);
    } else {
      next := i + 1;
      piece := [s[i]];
    }
  }

  /** Blanking two adjacent pieces blanks their concatenation. */
  lemma BlankedConcat(a: string, b: string, s: string, i: nat, j: nat)
    requires i <= j <= |s|
    requires Blanked(a, s[i..j]) && Blanked(b, s[j..])
    ensures Blanked(a + b, s[i..])
  {
    forall m | 0 <= m < |s| - i
      ensures (a + b)[m] == s[i..][m] || (a + b)[m] == ' '
    {
      if m < j - i {
        assert (a + b)[m] == a[m] && s[i..][m] == s[i..j][m];
      } else {
        assert (a + b)[m] == b[m - (j - i)] && s[i..][m] == s[j..][m - (j - i)];
      }
    }
  }

  lemma {:induction false} LineFromBlanked(s: string, i: nat)
    requires i <= |s|
    ensures Blanked(LineFrom(s, i), s[i..])
    decreases |s| - i
  {
    if i < |s| {
      if LineOpensAt(s, i) {
        LineFromBlanked(s, LineEnd(s, i + 3));
      } else {
        LineFromBlanked(s, i + 1);
      }
    }
  }

  // Only an opener followed by white space starts a comment: a text with no
  // such opener is left as it is (a comment written without that space stays).
  lemma NoOpenerUnchanged(code: string)
    requires forall i :: 0 <= i < |code| ==> !BlockOpensAt(code, i) && !LineOpensAt(code, i)
    ensures StripComments(code) == code
  {
    BlockFromNoOpener(code, 0);
    LineFromNoOpener(code, 0);
  }

  lemma {:induction false} BlockFromNoOpener(s: string, i: nat)
    requires i <= |s|
    requires forall j :: i <= j < |s| ==> !BlockOpensAt(s, j)
    ensures BlockFrom(s, i) == s[i..]
    decreases |s| - i
  {
    if i < |s| {
      BlockFromNoOpener(s, i + 1);
      assert s[i..] == [s[i]] + s[i + 1..];
    }
  }

  lemma {:induction false} LineFromNoOpener(s: string, i: nat)
    requires i <= |s|
    requires forall j :: i <= j < |s| ==> !LineOpensAt(s, j)
    ensures LineFrom(s, i) == s[i..]
    decreases |s| - i
  {
    if i < |s| {
      LineFromNoOpener(s, i + 1);
      assert s[i..] == [s[i]] + s[i + 1..];
    }
  }

  // A block comment whose only closing star-slash is its last two characters,
  // with no U+2028/U+2029 inside, becomes all spaces.
  lemma BlockCommentBlanked(comment: string)
    requires BlockOpensAt(comment, 0) && |comment| >= 5
    requires comment[|comment| - 2] == '*' && comment[|comment| - 1] == '/'
    requires forall k :: 3 <= k < |comment| - 2 ==> !(comment[k] == '*' && comment[k + 1] == '/')
    requires forall k :: 3 <= k < |comment| - 2 ==> !IsBarrier(comment[k], true)
    ensures BlockFrom(comment, 0) == Spaces(|comment|)
  {
    FindPairReaches(comment, 3, |comment| - 2, '*', '/', true);
  }

  /** A line comment is blanked up to, and not including, the line break that
      ends it, which is kept. */
  lemma LineCommentBlanked(c: char, text: string, nl: char, rest: string)
    requires IsSpace(c) && !IsLineTerminator(c) && NoLineTerminator(text) && IsLineTerminator(nl)
    ensures var s := "//" + [c] + text + [nl] + rest;
      LineFrom(s, 0)[..|text| + 4] == Spaces(|text| + 3) + [nl]
  {
    var s := "//" + [c] + text + [nl] + rest;
    var e := |text| + 3;
    assert s[3..e] == text;
    LineEndReaches(s, 3, e);
    assert LineFrom(s, 0) == Spaces(e) + LineFrom(s, e);
    assert s[e] == nl && !LineOpensAt(s, e);
    assert LineFrom(s, e) == [nl] + LineFrom(s, e + 1);
  }

  lemma {:induction false} LineEndReaches(s: string, j: nat, e: nat)
    requires j <= e < |s| && IsLineTerminator(s[e])
    requires forall m :: j <= m < e ==> !IsLineTerminator(s[m])
    ensures LineEnd(s, j) == e
    decreases e - j
  {
    if j < e {
      LineEndReaches(s, j + 1, e);
    }
  }
}
