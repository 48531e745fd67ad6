/**
 * The older `transformScriptSetup` (`src/transformScriptSetup.ts`), working on
 * the result of the older `parseVueSFC`. It applies no macros: every import of
 * `<script setup>` moves in front of the `<script>` program, every other
 * statement goes into a parameterless `setup`, and `setup` returns the
 * identifiers the template uses.
 */
module LegacyTransformScriptSetup {
  import opened Js
  import opened Errors
  import opened Utils
  import opened BabelAst
  import opened Parsers
  import opened Sfc
  import opened SfcMain
  import SetupBindings
  import LegacyParse

  /** `{ ast, code }` */
  datatype LegacyScriptResult = LegacyScriptResult(ast: seq<Node>, code: string)

  /** The source text parsed for `<script>`: an empty block reads as
      `export default {}`. */
  function ScriptSource(script: TagMeta): string
  {
    if script.content == "" then "export default {}" else script.content
  }

  /** The imports of `<script setup>`, in order. */
  function Imports(body: seq<Node>): (r: seq<Node>)
    ensures forall n :: n in r ==> n.ImportDeclaration?
  {
    if |body| == 0 then []
    else
      var n := body[|body| - 1];
      Imports(body[..|body| - 1]) + (if n.ImportDeclaration? then [n] else [])
  }

  /** The other statements of `<script setup>`, in order. */
  function NonImports(body: seq<Node>): (r: seq<Node>)
    ensures forall n :: n in r ==> !n.ImportDeclaration?
  {
    if |body| == 0 then []
    else
      var n := body[|body| - 1];
      NonImports(body[..|body| - 1]) + (if n.ImportDeclaration? then [] else [n])
  }

  /** Every statement is an import or goes into `setup`, exactly once. */
  lemma {:induction false} ImportsSplit(body: seq<Node>)
    ensures multiset(Imports(body)) + multiset(NonImports(body)) == multiset(body)
  {
    if |body| != 0 {
      var init, n := body[..|body| - 1], body[|body| - 1];
      ImportsSplit(init);
      ImportsSnoc(body);
      SplitSnoc(Imports(init), NonImports(init), init, n, n.ImportDeclaration?);
      assert body == init + [n];
    }
  }

  /** The last statement goes to exactly one side. */
  lemma ImportsSnoc(body: seq<Node>)
    requires |body| > 0
    ensures var init, n := body[..|body| - 1], body[|body| - 1];
      if n.ImportDeclaration? then Imports(body) == Imports(init) + [n] && NonImports(body) == NonImports(init)
      else Imports(body) == Imports(init) && NonImports(body) == NonImports(init) + [n]
  {
  }

  /** A `<script setup>` identifier is a component when the template uses it as
      written, camel-cased or pascal-cased. */
  predicate IsComponentName(components: seq<string>, i: string)
  {
    i in components || Camelize(i) in components || Pascalize(i) in components
  }

  /** The `<script setup>` identifiers that name a template component, in order. */
  function ComponentNames(identifiers: seq<string>, components: seq<string>): (r: seq<string>)
    ensures forall x :: x in r <==> x in identifiers && IsComponentName(components, x)
  {
    if |identifiers| == 0 then []
    else
      var init, x := identifiers[..|identifiers| - 1], identifiers[|identifiers| - 1];
      assert identifiers == init + [x];
      ComponentNames(init, components) + (if IsComponentName(components, x) then [x] else [])
  }

  /** `__sfc_main.setup = () => { ...body; return { ...returns } }` */
  function LegacySetupAssignment(body: seq<Node>, returned: seq<string>): Node
  {
    AssignProperty(Main, "setup",
      FunctionNode(ArrowFunctionExpression, None, [],
        BlockStatement(body + [ReturnStatement(Some(ShorthandObject(returned)))]), false))
  }

  /** The values computed from the two programs and the template. */
  datatype LegacyPlan = LegacyPlan(
    setupAst: seq<Node>,
    scriptAst: seq<Node>,
    returned: seq<string>,
    components: seq<string>)

  function LegacyPlanOf(tc: Toolchain, result: LegacyParse.ParseResult): Result<LegacyPlan>
  {
    var plugins :- LegacyScriptLanguage(result.scriptSetup, result.script);
    var setupAst := tc.parse(result.scriptSetup.content, plugins);
    var scriptAst := tc.parse(ScriptSource(result.script), plugins);
    var identifiers := Dedup(tc.identifierNames(setupAst));
    Ok(LegacyPlan(setupAst, scriptAst,
      SetupBindings.Returns(identifiers, result.template.identifiers),
      ComponentNames(identifiers, result.template.components)))
  }

  /** The program: the imports, the `<script>` program with its default export
      replaced, `setup` and `components` when they have content, and the export. */
  function LegacyProgram(plan: LegacyPlan): seq<Node>
  {
    BodyNodes(Imports(plan.setupAst) + plan.scriptAst)
    + (if |NonImports(plan.setupAst)| > 0 then [LegacySetupAssignment(NonImports(plan.setupAst), plan.returned)] else [])
    + (if |plan.components| > 0 then [ComponentsAssignment(plan.components)] else [])
    + [ExportDefaultDeclaration(Identifier(Main))]
  }

  /** What `transformScriptSetup(result)` returns or throws. */
  function LegacyTransformSpec(tc: Toolchain, result: LegacyParse.ParseResult): Result<LegacyScriptResult>
  {
    var plan :- LegacyPlanOf(tc, result);
    var ast := LegacyProgram(plan);
    Ok(LegacyScriptResult(ast, tc.generate(ast)))
  }

  /** The language checks and the plugin list. */
  method LegacyPlugins(scriptSetup: TagMeta, script: TagMeta) returns (r: Result<seq<string>>)
    ensures r == LegacyScriptLanguage(scriptSetup, script)
  {
    if script.found && scriptSetup.found && Lang(scriptSetup) != Lang(script) {
      return Err(LanguageMismatch);
    }
    var lang := Or(Lang(scriptSetup), Lang(script));
    var name := if lang.Some? then lang.value else "undefined";
    var plugins: seq<string> := [];
    if name == "ts" {
      plugins := plugins + ["typescript"];
      assert plugins == ["typescript"];
    } else if name == "jsx" {
      plugins := plugins + ["jsx"];
      assert plugins == ["jsx"];
    } else if name == "tsx" {
      plugins := plugins + ["typescript", "jsx"];
      assert plugins == ["typescript", "jsx"];
    } else if name != "js" {
      return Err(UnsupportedLanguage(name));
    }
    r := Ok(plugins);
  }

  /** `transformScriptSetup(result)`: the program body is built by `unshift`,
      the replacing traversal and the pushes. */
  method LegacyTransformScriptSetup(tc: Toolchain, result: LegacyParse.ParseResult) returns (r: Result<LegacyScriptResult>)
    ensures r == LegacyTransformSpec(tc, result)
  {
    var plugins :- LegacyPlugins(result.scriptSetup, result.script);
    var setupAst := tc.parse(result.scriptSetup.content, plugins);
    var scriptAst := tc.parse(ScriptSource(result.script), plugins);
    var identifiers := Dedup(tc.identifierNames(setupAst));
    var returned := SetupBindings.Returns(identifiers, result.template.identifiers);
    var components := ComponentNames(identifiers, result.template.components);
    ghost var plan := LegacyPlan(setupAst, scriptAst, returned, components);
    assert LegacyPlanOf(tc, result) == Ok(plan);

    var imports := Imports(setupAst);
    var setupBody := NonImports(setupAst);
    var body := imports + scriptAst;
    var hasDefault;
    body, hasDefault := ReplaceDefaultExports(body);
    ghost var base := body;
    if |setupBody| > 0 {
      body := body + [LegacySetupAssignment(setupBody, returned)];
    }
    if |components| > 0 {
      body := body + [ComponentsAssignment(components)];
    }
    body := body + [ExportDefaultDeclaration(Identifier(Main))];
    assert body == LegacyProgram(plan);
    r := Ok(LegacyScriptResult(body, tc.generate(body)));
  }

  /* ---------- what the program guarantees ---------- */

  /** The imports of `<script setup>` open the program, in their order. */
  lemma ImportsFirst(plan: LegacyPlan)
    ensures var ast := LegacyProgram(plan); var imports := Imports(plan.setupAst);
      |imports| <= |ast| && ast[..|imports|] == imports
  {
    var imports := Imports(plan.setupAst);
    var bodyNodes := BodyNodes(imports + plan.scriptAst);
    forall k | 0 <= k < |imports| ensures bodyNodes[k] == imports[k] {
      assert imports[k] in imports;
    }
    assert bodyNodes[..|imports|] == imports;
  }

  /** The program always ends with `export default __sfc_main`, and that is its
      only default export. */
  lemma LegacySingleDefaultExport(plan: LegacyPlan)
    ensures var ast := LegacyProgram(plan);
      && CountDefaultExports(ast) == 1
      && ast[|ast| - 1] == ExportDefaultDeclaration(Identifier(Main))
  {
    var setupBody := NonImports(plan.setupAst);
    var front := BodyNodes(Imports(plan.setupAst) + plan.scriptAst)
      + (if |setupBody| > 0 then [LegacySetupAssignment(setupBody, plan.returned)] else [])
      + (if |plan.components| > 0 then [ComponentsAssignment(plan.components)] else []);
    assert LegacyProgram(plan) == front + [ExportDefaultDeclaration(Identifier(Main))];
    BodyNodesNoDefaultExport(Imports(plan.setupAst) + plan.scriptAst);
    NoDefaultExportCounted(front);
    CountConcat(front, [ExportDefaultDeclaration(Identifier(Main))]);
    var none: seq<Node> := [];
    assert [ExportDefaultDeclaration(Identifier(Main))][..0] == none;
  }

  /** With an empty `<script>` block, and `export default {}` parsed as such,
      the program declares `const __sfc_main = {}`. */
  lemma EmptyScriptDeclaresMain(tc: Toolchain, result: LegacyParse.ParseResult)
    requires result.script.content == ""
    requires LegacyPlanOf(tc, result).Ok?
    requires tc.parse("export default {}", LegacyScriptLanguage(result.scriptSetup, result.script).value)
               == [ExportDefaultDeclaration(ObjectExpression([]))]
    ensures ConstDecl(Main, ObjectExpression([])) in LegacyProgram(LegacyPlanOf(tc, result).value)
  {
    var plan := LegacyPlanOf(tc, result).value;
    var imports := Imports(plan.setupAst);
    var all := imports + plan.scriptAst;
    assert all[|imports|] == ExportDefaultDeclaration(ObjectExpression([]));
    assert BodyNodes(all)[|imports|] == ConstDecl(Main, ObjectExpression([]));
    assert BodyNodes(all)[|imports|] in LegacyProgram(plan);
  }
}
