/**
 * What both SFC scanners record about a `<script>` block (`TagMeta` /
 * `ScriptTagMeta` without its AST), and how the script language is chosen
 * from the blocks' `lang` attributes.
 */
module Sfc {
  import opened Js
  import opened Errors

  datatype TagMeta = TagMeta(
    start: nat, end: nat, contentStart: nat, contentEnd: nat, content: string, attrs: Record, found: bool)

  /** A block that was never opened. */
  const EmptyMeta := TagMeta(0, 0, 0, 0, "", [], false)

  /** The open tag of a block, `<` at `startIndex` and `>` at `endIndex`. */
  function OpenScript(meta: TagMeta, startIndex: nat, endIndex: nat, attrs: Record): (m: TagMeta)
    ensures m.found && m.start == startIndex && m.contentStart == endIndex + 1 && m.attrs == attrs
    ensures m.end == meta.end && m.contentEnd == meta.contentEnd && m.content == meta.content
  {
    meta.(start := startIndex, contentStart := endIndex + 1, attrs := attrs, found := true)
  }

  /** The close tag of a block: the content is the original text between the
      two tags. */
  function CloseScript(code: string, meta: TagMeta, startIndex: nat, endIndex: nat): (m: TagMeta)
    ensures m.end == endIndex + 1 && m.contentEnd == startIndex
    ensures m.content == Slice(code, meta.contentStart, startIndex)
    ensures m.start == meta.start && m.contentStart == meta.contentStart && m.attrs == meta.attrs && m.found == meta.found
  {
    meta.(end := endIndex + 1, contentEnd := startIndex, content := Slice(code, meta.contentStart, startIndex))
  }

  /** `attrs.lang` */
  function Lang(meta: TagMeta): Option<string>
  {
    Get(meta.attrs, "lang")
  }

  /** JavaScript's `a || b` on an optional string: `undefined` and `''` are falsy. */
  function Or(a: Option<string>, b: Option<string>): (r: Option<string>)
    ensures a.Some? && a.value != "" ==> r == a
    ensures !(a.Some? && a.value != "") ==> r == b
  {
    if a.Some? && a.value != "" then a else b
  }

  /** Both blocks were found and their `lang` attributes differ (an absent one
      differs from every present one, the empty string included). */
  predicate LanguagesDiffer(scriptSetup: TagMeta, script: TagMeta)
  {
    script.found && scriptSetup.found && Lang(scriptSetup) != Lang(script)
  }

  /** The Babel plugins for a script language. */
  function PluginsFor(lang: string): (r: Result<seq<string>>)
    ensures r.Err? <==> lang != "js" && lang != "ts" && lang != "jsx" && lang != "tsx"
    ensures r.Err? ==> r.error == UnsupportedLanguage(lang)
    ensures r.Ok? ==> ("typescript" in r.value <==> lang == "ts" || lang == "tsx")
    ensures r.Ok? ==> ("jsx" in r.value <==> lang == "jsx" || lang == "tsx")
    ensures r.Ok? ==> forall p :: p in r.value ==> p == "typescript" || p == "jsx"
    ensures r.Ok? ==> NoDuplicates(r.value)
  {
    if lang == "ts" then Ok(["typescript"])
    else if lang == "jsx" then Ok(["jsx"])
    else if lang == "tsx" then Ok(["typescript", "jsx"])
    else if lang != "js" then Err(UnsupportedLanguage(lang))
    else Ok([])
  }

  /** `parseSFC`'s language choice: the same `lang` on both blocks, then the
      setup block's, else the plain block's, else `js`. */
  function ScriptLanguage(scriptSetup: TagMeta, script: TagMeta): (r: Result<seq<string>>)
    ensures LanguagesDiffer(scriptSetup, script) <==> r == Err(LanguageMismatch)
  {
    if LanguagesDiffer(scriptSetup, script) then Err(LanguageMismatch)
    else PluginsFor(Or(Or(Lang(scriptSetup), Lang(script)), Some("js")).value)
  }

  /** The older `transformScriptSetup`'s choice: there is no `js` default, and a
      missing language is reported as `undefined`. */
  function LegacyScriptLanguage(scriptSetup: TagMeta, script: TagMeta): (r: Result<seq<string>>)
    ensures LanguagesDiffer(scriptSetup, script) <==> r == Err(LanguageMismatch)
  {
    if LanguagesDiffer(scriptSetup, script) then Err(LanguageMismatch)
    else
      match Or(Lang(scriptSetup), Lang(script))
      case None => PluginsFor("undefined")
      case Some(lang) => PluginsFor(lang)
  }

  /** The effective language is the setup block's `lang`, then the plain block's,
      then `js`; TypeScript and JSX are switched on accordingly. */
  lemma EffectiveLanguage(scriptSetup: TagMeta, script: TagMeta)
    requires !LanguagesDiffer(scriptSetup, script)
    ensures var lang :=
        if Lang(scriptSetup).Some? && Lang(scriptSetup).value != "" then Lang(scriptSetup).value
        else if Lang(script).Some? && Lang(script).value != "" then Lang(script).value
        else "js";
      ScriptLanguage(scriptSetup, script) == PluginsFor(lang)
  {
  }

  /** Without any `lang`, the core parser reads plain JavaScript while the older
      transform rejects the file. */
  lemma NoLangAttribute(scriptSetup: TagMeta, script: TagMeta)
    requires Lang(scriptSetup).None? && Lang(script).None?
    ensures ScriptLanguage(scriptSetup, script) == Ok([])
    ensures LegacyScriptLanguage(scriptSetup, script) == Err(UnsupportedLanguage("undefined"))
  {
  }
}
