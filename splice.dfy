/**
 * The text surgery of `transform` (`src/core/transform.ts`) on a fresh
 * MagicString: the plain `<script>` is removed, and the new block overwrites
 * `<script setup>` or, when there is none, is put in front of the file.
 */
module Splice {
  import opened Errors
  import opened Sfc
  import opened MagicStrings

  /** Remove the plain script, then overwrite the setup script with the block,
      or put the block and a newline in front when there is no setup script. */
  function SpliceSpec(input: string, script: TagMeta, setup: TagMeta, block: string): Result<string>
  {
    var l1 :- RemoveSpec(Initial(input), script.start, script.end);
    if setup.start != setup.end then
      var l2 :- OverwriteSpec(l1, setup.start, setup.end, block);
      Ok(Text(l2))
    else
      Ok(Text(PrependLeftSpec(l1, 0, block + "\n")))
  }

  /** The pieces after removing `a..b` and overwriting `c..d`. */
  lemma RemovedThenOverwritten(s: string, a: nat, b: nat, c: nat, d: nat, block: string)
    requires a <= b <= |s| && c < d <= |s| && (b <= c || d <= a)
    ensures RemoveSpec(Initial(s), a, b).Ok?
    ensures OverwriteSpec(RemoveSpec(Initial(s), a, b).value, c, d, block).Ok?
    ensures var l := OverwriteSpec(RemoveSpec(Initial(s), a, b).value, c, d, block).value;
      && l.intro == ""
      && (b <= c ==> TwoEdits(l.chars, l.outros, s, a, b, "", c, d, block))
      && (d <= a ==> TwoEdits(l.chars, l.outros, s, c, d, block, a, b, ""))
  {
    var l := OverwriteSpec(RemoveSpec(Initial(s), a, b).value, c, d, block).value;
    forall i | a <= i < b
      ensures EditedAt(l.chars, l.outros, i, a, b, "")
    {
    }
    forall i | c <= i < d
      ensures EditedAt(l.chars, l.outros, i, c, d, block)
    {
    }
  }

  /** A setup script after the plain script: the plain script disappears and
      the block takes the setup script's place; the rest is kept in order. */
  lemma SpliceSetupAfterScript(s: string, script: TagMeta, setup: TagMeta, block: string)
    requires script.start <= script.end <= setup.start < setup.end <= |s|
    ensures SpliceSpec(s, script, setup, block) ==
      Ok(s[..script.start] + (s[script.end..setup.start] + (block + s[setup.end..])))
  {
    var a, b, c, d := script.start, script.end, setup.start, setup.end;
    RemovedThenOverwritten(s, a, b, c, d, block);
    var l := OverwriteSpec(RemoveSpec(Initial(s), a, b).value, c, d, block).value;
    TwoEditsRendered(l.chars, l.outros, s, a, b, "", c, d, block);
    AfterShape(s, a, b, c, d, block);
  }

  lemma AfterShape(s: string, a: nat, b: nat, c: nat, d: nat, block: string)
    requires a <= b <= c < d <= |s|
    ensures "" + (s[..a] + ((if a < b then "" else "") + (s[b..c] + ((if c < d then block else "") + s[d..]))))
      == s[..a] + (s[b..c] + (block + s[d..]))
  {
  }

  /** A setup script before the plain script. */
  lemma SpliceSetupBeforeScript(s: string, script: TagMeta, setup: TagMeta, block: string)
    requires setup.start < setup.end <= script.start <= script.end <= |s|
    ensures SpliceSpec(s, script, setup, block) ==
      Ok(s[..setup.start] + (block + (s[setup.end..script.start] + s[script.end..])))
  {
    var a, b, c, d := script.start, script.end, setup.start, setup.end;
    RemovedThenOverwritten(s, a, b, c, d, block);
    var l := OverwriteSpec(RemoveSpec(Initial(s), a, b).value, c, d, block).value;
    TwoEditsRendered(l.chars, l.outros, s, c, d, block, a, b, "");
    BeforeShape(s, a, b, c, d, block);
  }

  lemma BeforeShape(s: string, a: nat, b: nat, c: nat, d: nat, block: string)
    requires c < d <= a <= b <= |s|
    ensures "" + (s[..c] + ((if c < d then block else "") + (s[d..a] + ((if a < b then "" else "") + s[b..]))))
      == s[..c] + (block + (s[d..a] + s[b..]))
  {
  }

  /** The pieces after removing `a..b`. */
  lemma Removed(s: string, a: nat, b: nat)
    requires a <= b <= |s|
    ensures RemoveSpec(Initial(s), a, b).Ok?
    ensures var l := RemoveSpec(Initial(s), a, b).value;
      l.intro == "" && TwoEdits(l.chars, l.outros, s, a, b, "", |s|, |s|, "")
  {
    var l := RemoveSpec(Initial(s), a, b).value;
    forall i | a <= i < b
      ensures EditedAt(l.chars, l.outros, i, a, b, "")
    {
    }
  }

  /** No setup script: the block and a newline open the output, and the plain
      script disappears. */
  lemma SplicePrependsBlock(s: string, script: TagMeta, setup: TagMeta, block: string)
    requires script.start <= script.end <= |s| && setup.start == setup.end
    ensures SpliceSpec(s, script, setup, block) ==
      Ok((block + "\n") + (s[..script.start] + s[script.end..]))
  {
    var a, b := script.start, script.end;
    Removed(s, a, b);
    var l := RemoveSpec(Initial(s), a, b).value;
    TwoEditsRendered(l.chars, l.outros, s, a, b, "", |s|, |s|, "");
    PrependShape(s, a, b, block);
  }

  lemma PrependShape(s: string, a: nat, b: nat, block: string)
    requires a <= b <= |s|
    ensures ((block + "\n") + "") + (s[..a] + ((if a < b then "" else "") + (s[b..|s|] + ("" + s[|s|..]))))
      == (block + "\n") + (s[..a] + s[b..])
  {
    EmptyTail(s, b);
  }
}
