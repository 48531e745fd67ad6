/**
 * `transform(input, id, options)` (`src/core/transform.ts`): parse the SFC,
 * build the new `<script>` block from the merged attributes and the generated
 * code, and splice it into the original text with MagicString.
 */
module Transform {
  import opened Js
  import opened Errors
  import opened Parsers
  import opened MagicStrings
  import opened TransformAttributes
  import opened Splice
  import ParseSfc
  import TransformScriptSetup

  /** The output once the SFC is parsed and the code generated: the input
      itself when there is no code, else the input with the new block spliced in. */
  function OutputSpec(input: string, sfc: ParseSfc.ParsedSfc, code: string): Result<string>
  {
    if code == "" then Ok(Text(Initial(input)))
    else
      var attr := RenderedAttributes(MergedAttributes(sfc.script.attrs, sfc.scriptSetup.attrs));
      SpliceSpec(input, sfc.script, sfc.scriptSetup, Block(attr, code))
  }

  /** What `transform(input, id, options)` returns as its code, or throws. */
  function TransformSpec(tc: Toolchain, input: string, transforms: Option<TransformScriptSetup.AstTransforms>): Result<string>
  {
    var sfc :- ParseSfc.ParseSfcSpec(tc, input);
    var result :- TransformScriptSetup.TransformScriptSetupSpec(tc, sfc, transforms);
    OutputSpec(input, sfc, result.code)
  }

  /** The attribute merge and the edits on the MagicString `s` of the input. */
  method EditOutput(s: MagicString, sfc: ParseSfc.ParsedSfc, code: string) returns (r: Result<string>)
    requires s.Valid() && s.Current() == Initial(s.original)
    modifies s
    ensures r == OutputSpec(s.original, sfc, code)
  {
    var attributes := Spread(Spread([], sfc.script.attrs), sfc.scriptSetup.attrs);
    attributes := Delete(attributes, "setup");
    var attr := RenderedAttributes(attributes);
    if code != "" {
      var block := Block(attr, code);
      var removed :- s.Remove(sfc.script.start, sfc.script.end);
      if sfc.scriptSetup.start != sfc.scriptSetup.end {
        var overwritten :- s.Overwrite(sfc.scriptSetup.start, sfc.scriptSetup.end, block);
      } else {
        s.PrependLeft(0, block + "\n");
      }
    }
    r := Ok(s.ToString());
  }

  /** `transform(input, id, options)`: the MagicString is edited in place. */
  method Transform(tc: Toolchain, input: string, transforms: Option<TransformScriptSetup.AstTransforms>)
    returns (r: Result<string>)
    ensures r == TransformSpec(tc, input, transforms)
  {
    var s := new MagicString(input);
    var sfc :- ParseSfc.ParseSfc(tc, input);
    var result :- TransformScriptSetup.TransformScriptSetup(tc, sfc, transforms);
    r := EditOutput(s, sfc, result.code);
  }

  /* ---------- what transform guarantees ---------- */

  /** Nothing generated: the output is the input. */
  lemma EmptyCodeKeepsInput(tc: Toolchain, input: string, transforms: Option<TransformScriptSetup.AstTransforms>)
    ensures var sfc := ParseSfc.ParseSfcSpec(tc, input);
      sfc.Ok? && TransformScriptSetup.TransformScriptSetupSpec(tc, sfc.value, transforms) == Ok(TransformScriptSetup.ScriptResult(None, ""))
      ==> TransformSpec(tc, input, transforms) == Ok(input)
  {
    InitialText(input);
  }

  /** Parsing errors and macro errors are what `transform` throws. */
  lemma TransformErrors(tc: Toolchain, input: string, transforms: Option<TransformScriptSetup.AstTransforms>)
    ensures ParseSfc.ParseSfcSpec(tc, input).Err? ==>
      TransformSpec(tc, input, transforms) == Err(ParseSfc.ParseSfcSpec(tc, input).error)
    ensures var sfc := ParseSfc.ParseSfcSpec(tc, input);
      sfc.Ok? && TransformScriptSetup.TransformScriptSetupSpec(tc, sfc.value, transforms).Err? ==>
        TransformSpec(tc, input, transforms) == Err(TransformScriptSetup.TransformScriptSetupSpec(tc, sfc.value, transforms).error)
  {
  }
}
