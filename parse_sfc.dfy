/**
 * `parseSFC` (`src/core/parseSFC.ts`): the tag-event scanner that finds the
 * `<script setup>`, `<script>` and top-level `<template>` regions, the
 * language check, and the template references reported for the file.
 */
module ParseSfc {
  import opened Js
  import opened Errors
  import opened Utils
  import opened BabelAst
  import opened TemplateAst
  import opened Parsers
  import opened Comments
  import opened TemplateRefs
  import opened Sfc

  /** The variables the parser callbacks update. */
  datatype ScanState = ScanState(
    templateLevel: int,
    inScriptSetup: bool,
    inScript: bool,
    scriptSetup: TagMeta,
    script: TagMeta,
    templateStart: Option<nat>,
    templateEnd: Option<nat>,
    pug: bool)

  const Initial := ScanState(0, false, false, EmptyMeta, EmptyMeta, None, None, false)

  /** One `onopentag`/`onclosetag` callback (text is ignored). */
  function Step(code: string, st: ScanState, ev: TagEvent): ScanState
  {
    match ev
    case OpenTag(name, attrs, startIndex, endIndex) =>
      if name == "" then st
      else if name == "template" then
        st.(templateStart := if st.templateLevel == 0 then Some(endIndex + 1) else st.templateStart,
            pug := st.pug || (st.templateLevel == 0 && Get(attrs, "lang") == Some("pug")),
            templateLevel := st.templateLevel + 1)
      else if name == "script" then
        if HasKey(attrs, "setup") then
          st.(scriptSetup := OpenScript(st.scriptSetup, startIndex, endIndex, attrs), inScriptSetup := true)
        else
          st.(script := OpenScript(st.script, startIndex, endIndex, attrs), inScript := true)
      else st
    case TextChunk(_) => st
    case CloseTag(name, startIndex, endIndex) =>
      var st1 :=
        if name == "template" then
          st.(templateLevel := st.templateLevel - 1,
              templateEnd := if st.templateLevel - 1 == 0 && st.templateStart.Some? then Some(startIndex) else st.templateEnd)
        else st;
      var st2 :=
        if st1.inScriptSetup && name == "script" then
          st1.(scriptSetup := CloseScript(code, st1.scriptSetup, startIndex, endIndex), inScriptSetup := false)
        else st1;
      if st2.inScript && name == "script" then
        st2.(script := CloseScript(code, st2.script, startIndex, endIndex), inScript := false)
      else st2
  }

  /** The state after the callbacks for `events`, in order. */
  function Scan(code: string, events: seq<TagEvent>): ScanState
  {
    if |events| == 0 then Initial
    else Step(code, Scan(code, events[..|events| - 1]), events[|events| - 1])
  }

  /** The parser run: the callbacks of `parseSFC` applied to each event. */
  method ScanTags(code: string, events: seq<TagEvent>) returns (st: ScanState)
    ensures st == Scan(code, events)
  {
    var templateLevel := 0;
    var inScriptSetup, inScript := false, false;
    var scriptSetup, script := EmptyMeta, EmptyMeta;
    var templateStart: Option<nat> := None;
    var templateEnd: Option<nat> := None;
    var pug := false;
    var i := 0;
    while i < |events|
      invariant 0 <= i <= |events|
      invariant ScanState(templateLevel, inScriptSetup, inScript, scriptSetup, script, templateStart, templateEnd, pug)
        == Scan(code, events[..i])
    {
      match events[i] {
        case OpenTag(name, attrs, startIndex, endIndex) =>
          if name != "" {
            if name == "template" {
              if templateLevel == 0 {
                templateStart := Some(endIndex + 1);
                if Get(attrs, "lang") == Some("pug") {
                  pug := true;
                }
              }
              templateLevel := templateLevel + 1;
            }
            if name == "script" {
              if HasKey(attrs, "setup") {
                scriptSetup := scriptSetup.(start := startIndex, contentStart := endIndex + 1, attrs := attrs, found := true);
                inScriptSetup := true;
              } else {
                script := script.(start := startIndex, contentStart := endIndex + 1, attrs := attrs, found := true);
                inScript := true;
              }
            }
          }
        case TextChunk(_) =>
        case CloseTag(name, startIndex, endIndex) =>
          if name == "template" {
            templateLevel := templateLevel - 1;
            if templateLevel == 0 && templateStart.Some? {
              templateEnd := Some(startIndex);
            }
          }
          if inScriptSetup && name == "script" {
            scriptSetup := scriptSetup.(end := endIndex + 1, contentEnd := startIndex,
                                        content := Slice(code, scriptSetup.contentStart, startIndex));
            inScriptSetup := false;
          }
          if inScript && name == "script" {
            script := script.(end := endIndex + 1, contentEnd := startIndex,
                              content := Slice(code, script.contentStart, startIndex));
            inScript := false;
          }
      }
      assert events[..i + 1][..i] == events[..i];
      i := i + 1;
    }
    assert events[..|events|] == events;
    st := ScanState(templateLevel, inScriptSetup, inScript, scriptSetup, script, templateStart, templateEnd, pug);
  }

  /* ---------- what the scanner guarantees ---------- */

  /** An open block has been found; a block never found keeps its initial
      record; a closed block's content is the original text between its tags. */
  predicate MetaConsistent(code: string, meta: TagMeta, open: bool)
  {
    && (open ==> meta.found)
    && (!meta.found ==> meta == EmptyMeta)
    && (!open ==> meta.content == Slice(code, meta.contentStart, meta.contentEnd))
  }

  predicate Consistent(code: string, st: ScanState)
  {
    && MetaConsistent(code, st.scriptSetup, st.inScriptSetup)
    && MetaConsistent(code, st.script, st.inScript)
    && (st.templateEnd.Some? ==> st.templateStart.Some?)
  }

  lemma {:induction false} ScanConsistent(code: string, events: seq<TagEvent>)
    ensures Consistent(code, Scan(code, events))
  {
    if |events| != 0 {
      ScanConsistent(code, events[..|events| - 1]);
      StepConsistent(code, Scan(code, events[..|events| - 1]), events[|events| - 1]);
    }
  }

  lemma StepConsistent(code: string, st: ScanState, ev: TagEvent)
    requires Consistent(code, st)
    ensures Consistent(code, Step(code, st, ev))
  {
    match ev
    case OpenTag(_, _, _, _) =>
    case TextChunk(_) =>
    case CloseTag(name, startIndex, endIndex) =>
      var st1 :=
        if name == "template" then
          st.(templateLevel := st.templateLevel - 1,
              templateEnd := if st.templateLevel - 1 == 0 && st.templateStart.Some? then Some(startIndex) else st.templateEnd)
        else st;
      assert Consistent(code, st1);
  }

  function TemplateDelta(ev: TagEvent): int
  {
    if ev.OpenTag? && ev.name == "template" then 1
    else if ev.CloseTag? && ev.name == "template" then -1
    else 0
  }

  /** Opened minus closed `<template>` tags. */
  function TemplateDepth(events: seq<TagEvent>): int
  {
    if |events| == 0 then 0 else TemplateDepth(events[..|events| - 1]) + TemplateDelta(events[|events| - 1])
  }

  lemma {:induction false} LevelIsDepth(code: string, events: seq<TagEvent>)
    ensures Scan(code, events).templateLevel == TemplateDepth(events)
  {
    if |events| != 0 {
      LevelIsDepth(code, events[..|events| - 1]);
    }
  }

  predicate OpensPugTemplate(ev: TagEvent)
  {
    ev.OpenTag? && ev.name == "template" && Get(ev.attrs, "lang") == Some("pug")
  }

  /** `events[j]` opens an outermost `<template lang="pug">`. */
  predicate OuterPugAt(events: seq<TagEvent>, j: int)
  {
    0 <= j < |events| && OpensPugTemplate(events[j]) && TemplateDepth(events[..j]) == 0
  }

  /** The template is pug exactly when some outermost `<template>` says so;
      a nested `<template lang="pug">` does not count. */
  lemma {:induction false} PugOnlyFromOutermost(code: string, events: seq<TagEvent>)
    ensures Scan(code, events).pug <==> exists j :: OuterPugAt(events, j)
  {
    if |events| != 0 {
      var p := events[..|events| - 1];
      PugOnlyFromOutermost(code, p);
      LevelIsDepth(code, p);
      assert events[..|p|] == p;
      forall j | 0 <= j < |p|
        ensures OuterPugAt(events, j) <==> OuterPugAt(p, j)
      {
        assert events[..j] == p[..j];
      }
      if Scan(code, events).pug {
        if !Scan(code, p).pug {
          assert OuterPugAt(events, |p|);
        }
      }
    }
  }

  predicate OuterTemplateOpenAt(events: seq<TagEvent>, j: int, offset: nat)
  {
    && 0 <= j < |events| && events[j].OpenTag? && events[j].name == "template"
    && events[j].endIndex + 1 == offset && TemplateDepth(events[..j]) == 0
  }

  predicate OuterTemplateCloseAt(events: seq<TagEvent>, j: int, offset: nat)
  {
    && 0 <= j < |events| && events[j].CloseTag? && events[j].name == "template"
    && events[j].startIndex == offset && TemplateDepth(events[..j + 1]) == 0
  }

  /** The template start is recorded only when an outermost `<template>` opens
      (just after its `>`), and the end only when the depth returns to 0 (at
      the `<` of the close tag). */
  lemma {:induction false} TemplateBounds(code: string, events: seq<TagEvent>)
    ensures var st := Scan(code, events);
      && (st.templateStart.Some? ==> exists j :: OuterTemplateOpenAt(events, j, st.templateStart.value))
      && (st.templateEnd.Some? ==> exists j :: OuterTemplateCloseAt(events, j, st.templateEnd.value))
  {
    if |events| != 0 {
      var p := events[..|events| - 1];
      var before, after := Scan(code, p), Scan(code, events);
      TemplateBounds(code, p);
      LevelIsDepth(code, p);
      assert events[..|p|] == p;
      assert events[..|p| + 1] == events;
      if after.templateStart.Some? {
        if after.templateStart == before.templateStart {
          var j :| OuterTemplateOpenAt(p, j, before.templateStart.value);
          assert events[..j] == p[..j];
          assert OuterTemplateOpenAt(events, j, after.templateStart.value);
        } else {
          assert OuterTemplateOpenAt(events, |p|, after.templateStart.value);
        }
      }
      if after.templateEnd.Some? {
        if after.templateEnd == before.templateEnd {
          var j :| OuterTemplateCloseAt(p, j, before.templateEnd.value);
          assert events[..j + 1] == p[..j + 1];
          assert OuterTemplateCloseAt(events, j, after.templateEnd.value);
        } else {
          assert OuterTemplateCloseAt(events, |p|, after.templateEnd.value);
        }
      }
    }
  }

  predicate TouchesScript(ev: TagEvent)
  {
    (ev.OpenTag? || ev.CloseTag?) && ev.name == "script"
  }

  lemma {:induction false} OtherEventsKeepScripts(code: string, pre: seq<TagEvent>, mid: seq<TagEvent>)
    requires forall k :: 0 <= k < |mid| ==> !TouchesScript(mid[k])
    ensures var a, b := Scan(code, pre), Scan(code, pre + mid);
      && b.scriptSetup == a.scriptSetup && b.inScriptSetup == a.inScriptSetup
      && b.script == a.script && b.inScript == a.inScript
    decreases |mid|
  {
    if |mid| != 0 {
      var m := mid[..|mid| - 1];
      OtherEventsKeepScripts(code, pre, m);
      assert (pre + mid)[..|pre + mid| - 1] == pre + m;
      assert (pre + mid)[|pre + mid| - 1] == mid[|mid| - 1];
    } else {
      assert pre + mid == pre;
    }
  }

  /** A `<script setup>` opened and then closed, with no script tag between,
      records its tag offsets and its original content, whatever came before
      (a later block overwrites an earlier one). */
  lemma SetupRegion(code: string, pre: seq<TagEvent>, attrs: Record, openStart: nat, openEnd: nat,
                    mid: seq<TagEvent>, closeStart: nat, closeEnd: nat)
    requires HasKey(attrs, "setup")
    requires forall k :: 0 <= k < |mid| ==> !TouchesScript(mid[k])
    ensures var st := Scan(code, pre + [OpenTag("script", attrs, openStart, openEnd)] + mid + [CloseTag("script", closeStart, closeEnd)]);
      && st.scriptSetup == TagMeta(openStart, closeEnd + 1, openEnd + 1, closeStart, Slice(code, openEnd + 1, closeStart), attrs, true)
      && !st.inScriptSetup
  {
    var withOpen := pre + [OpenTag("script", attrs, openStart, openEnd)];
    assert withOpen[..|withOpen| - 1] == pre;
    OtherEventsKeepScripts(code, withOpen, mid);
    var all := withOpen + mid + [CloseTag("script", closeStart, closeEnd)];
    assert all[..|all| - 1] == withOpen + mid;
  }

  /** The same for a plain `<script>` block. */
  lemma ScriptRegion(code: string, pre: seq<TagEvent>, attrs: Record, openStart: nat, openEnd: nat,
                     mid: seq<TagEvent>, closeStart: nat, closeEnd: nat)
    requires !HasKey(attrs, "setup")
    requires forall k :: 0 <= k < |mid| ==> !TouchesScript(mid[k])
    ensures var st := Scan(code, pre + [OpenTag("script", attrs, openStart, openEnd)] + mid + [CloseTag("script", closeStart, closeEnd)]);
      && st.script == TagMeta(openStart, closeEnd + 1, openEnd + 1, closeStart, Slice(code, openEnd + 1, closeStart), attrs, true)
      && !st.inScript
  {
    var withOpen := pre + [OpenTag("script", attrs, openStart, openEnd)];
    assert withOpen[..|withOpen| - 1] == pre;
    OtherEventsKeepScripts(code, withOpen, mid);
    var all := withOpen + mid + [CloseTag("script", closeStart, closeEnd)];
    assert all[..|all| - 1] == withOpen + mid;
  }

  predicate OpensSetup(ev: TagEvent)
  {
    ev.OpenTag? && ev.name == "script" && HasKey(ev.attrs, "setup")
  }

  /** Without a `<script setup>` open tag the setup block keeps offsets 0, empty
      content and `found` false. */
  lemma {:induction false} SetupNeverOpened(code: string, events: seq<TagEvent>)
    requires forall k :: 0 <= k < |events| ==> !OpensSetup(events[k])
    ensures Scan(code, events).scriptSetup == EmptyMeta && !Scan(code, events).inScriptSetup
  {
    if |events| != 0 {
      SetupNeverOpened(code, events[..|events| - 1]);
    }
  }

  /* ---------- the parsed file ---------- */

  datatype TemplateInfo = TemplateInfo(components: seq<string>, directives: seq<string>, identifiers: seq<string>)

  /** `ParsedSFC`: the two blocks with their programs, the Babel plugins chosen and
      the extra declarations (always none here). */
  datatype ParsedSfc = ParsedSfc(
    template: TemplateInfo,
    scriptSetup: TagMeta,
    script: TagMeta,
    scriptSetupAst: seq<Node>,
    scriptAst: seq<Node>,
    plugins: seq<string>,
    extraDeclarations: seq<Node>)

  /** `codeOfTemplate`: the top-level template's inner text from the original code
      (compiled to HTML first when it is pug), wrapped in a `<template>` element. */
  function TemplateCode(tc: Toolchain, code: string, st: ScanState): (r: Option<string>)
    ensures r.Some? <==> st.templateStart.Some? && st.templateEnd.Some?
  {
    if st.templateStart.None? || st.templateEnd.None? then None
    else
      var templateCode := Slice(code, st.templateStart.value, st.templateEnd.value);
      var html := if st.pug then tc.compilePug(templateCode) else templateCode;
      Some("<template>\n" + html + "\n</template>")
  }

  function PascalizeAll(names: seq<string>): (r: seq<string>)
    ensures |r| == |names| && forall i :: 0 <= i < |names| ==> r[i] == Pascalize(names[i])
  {
    if |names| == 0 then [] else [Pascalize(names[0])] + PascalizeAll(names[1..])
  }

  predicate IsCustomDirective(name: string)
  {
    name !in BuiltInDirectives
  }

  /** `directives.filter(x => !BUILD_IN_DIRECTIVES.has(x)).map(camelize)` */
  function CustomDirectives(names: seq<string>): (r: seq<string>)
    ensures forall i :: 0 <= i < |names| && IsCustomDirective(names[i]) ==> Camelize(names[i]) in r
    ensures forall d :: d in r ==> exists i :: 0 <= i < |names| && IsCustomDirective(names[i]) && d == Camelize(names[i])
  {
    if |names| == 0 then []
    else
      var rest := CustomDirectives(names[1..]);
      assert forall i :: 1 <= i < |names| ==> names[i] == names[1..][i - 1];
      if IsCustomDirective(names[0]) then [Camelize(names[0])] + rest else rest
  }

  /** The template part of `ParsedSFC`: pascal-cased components, camel-cased
      custom directives and the free identifiers, each as an insertion-ordered set. */
  function TemplateInfoOf(tc: Toolchain, templateCode: Option<string>): (t: TemplateInfo)
    ensures NoDuplicates(t.components) && NoDuplicates(t.directives) && NoDuplicates(t.identifiers)
    ensures templateCode.None? ==> t == TemplateInfo([], [], [])
  {
    var refs := if templateCode.None? then References([], [], []) else FindReferences(tc, templateCode.value);
    TemplateInfo(Dedup(PascalizeAll(refs.components)), Dedup(CustomDirectives(refs.directives)), Dedup(refs.identifiers))
  }

  /** The scanner's final state on a file. */
  function Scanned(tc: Toolchain, code: string): ScanState
  {
    Scan(code, tc.tokenize(StripComments(code)))
  }

  /** What `parseSFC` returns or throws. */
  function ParseSfcSpec(tc: Toolchain, code: string): (r: Result<ParsedSfc>)
    ensures var st := Scanned(tc, code);
      && (r.Err? <==> ScriptLanguage(st.scriptSetup, st.script).Err?)
      && (r.Err? ==> r.error == ScriptLanguage(st.scriptSetup, st.script).error)
      && (r.Ok? ==> r.value.scriptSetup == st.scriptSetup && r.value.script == st.script)
      && (r.Ok? ==> r.value.plugins == ScriptLanguage(st.scriptSetup, st.script).value)
      && (r.Ok? ==> r.value.extraDeclarations == [])
  {
    var st := Scanned(tc, code);
    match ScriptLanguage(st.scriptSetup, st.script)
    case Err(e) => Err(e)
    case Ok(plugins) =>
      Ok(ParsedSfc(
        TemplateInfoOf(tc, TemplateCode(tc, code, st)),
        st.scriptSetup,
        st.script,
        tc.parse(st.scriptSetup.content, plugins),
        tc.parse(st.script.content, plugins),
        plugins,
        []))
  }

  /** `parseSFC`: blank the comments, run the tokenizer, check the languages,
      collect the plugins, parse both blocks and the template references. */
  method ParseSfc(tc: Toolchain, code: string) returns (r: Result<ParsedSfc>)
    ensures r == ParseSfcSpec(tc, code)
  {
    var striped := StripComments(code);
    var st := ScanTags(code, tc.tokenize(striped));
    assert st == Scanned(tc, code);
    if st.script.found && st.scriptSetup.found && Lang(st.scriptSetup) != Lang(st.script) {
      return Err(LanguageMismatch);
    }
    var plugins: seq<string> := [];
    var lang := Or(Or(Lang(st.scriptSetup), Lang(st.script)), Some("js")).value;
    assert ScriptLanguage(st.scriptSetup, st.script) == PluginsFor(lang);
    if lang == "ts" {
      plugins := plugins + ["typescript"];
      assert plugins == ["typescript"];
    } else if lang == "jsx" {
      plugins := plugins + ["jsx"];
      assert plugins == ["jsx"];
    } else if lang == "tsx" {
      plugins := plugins + ["typescript", "jsx"];
      assert plugins == ["typescript", "jsx"];
    } else if lang != "js" {
      return Err(UnsupportedLanguage(lang));
    }
    assert PluginsFor(lang) == Ok(plugins);
    var scriptSetupAst := tc.parse(st.scriptSetup.content, plugins);
    var scriptAst := tc.parse(st.script.content, plugins);
    var template := TemplateInfoOf(tc, TemplateCode(tc, code, st));
    r := Ok(ParsedSfc(template, st.scriptSetup, st.script, scriptSetupAst, scriptAst, plugins, []));
  }
}
