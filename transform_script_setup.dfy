/**
 * `transformScriptSetup` (`src/core/transformScriptSetup.ts`): runs the macros
 * over the `<script setup>` program, keeps imports, named exports, type
 * declarations and async component imports at module level, and assembles a
 * program that declares the component object `__sfc_main`, attaches `props`,
 * `setup`, `components` and `directives` to it and exports it.
 */
module TransformScriptSetup {
  import opened Js
  import opened Errors
  import opened Utils
  import opened BabelAst
  import opened Parsers
  import ParseSfc
  import Macros
  import opened SetupPartition
  import opened SetupBindings
  import opened SfcMain

  /* ---------- the statements built ---------- */


  /** What `setup` returns: the template bindings, merged with the exposed
      object when there is one. */
  function ReturnExpression(returned: seq<string>, expose: Option<Node>): Node
  {
    if expose.Some? then ObjectAssign(ShorthandObject(returned), expose.value) else ShorthandObject(returned)
  }

  /** `__sfc_main.setup = (__props, __ctx) => { ...setupBody; return ... }` */
  function SetupAssignment(setupBody: seq<Node>, returned: seq<string>, expose: Option<Node>): Node
  {
    AssignProperty(Main, "setup",
      FunctionNode(ArrowFunctionExpression, None, [Identifier("__props"), Identifier("__ctx")],
        BlockStatement(setupBody + [ReturnStatement(Some(ReturnExpression(returned, expose)))]), false))
  }

  /** The object `{ d: vD, ... }` of directive bindings. */
  function DirectivesObject(bindings: seq<DirectiveBinding>): (o: Node)
    ensures o.ObjectExpression? && |o.properties| == |bindings|
    ensures forall k :: 0 <= k < |bindings| ==>
      o.properties[k] == ObjectProperty(Identifier(bindings[k].directive), Identifier(bindings[k].identifier), false, false)
  {
    ObjectExpression(seq(|bindings|, k requires 0 <= k < |bindings| =>
      ObjectProperty(Identifier(bindings[k].directive), Identifier(bindings[k].identifier), false, false)))
  }

  /** `__sfc_main.directives = Object.assign({ ... }, __sfc_main.directives)` */
  function DirectivesAssignment(bindings: seq<DirectiveBinding>): Node
  {
    AssignProperty(Main, "directives", ObjectAssign(DirectivesObject(bindings), Member(Main, "directives")))
  }

  /** The `astTransforms` option; `post` may return nothing, which keeps the program. */
  datatype AstTransforms = AstTransforms(post: Option<(seq<Node>, ParseSfc.ParsedSfc) -> Option<seq<Node>>>)

  /** `{ ast, code }`; `ast` is `None` for `null`. */
  datatype ScriptResult = ScriptResult(ast: Option<seq<Node>>, code: string)

  /** The values `transformScriptSetup` computes before assembling the program. */
  datatype Plan = Plan(
    macros: Macros.MacroResult,
    hoisted: seq<Node>,
    setupBody: seq<Node>,
    declared: seq<string>,
    returned: seq<string>,
    components: seq<string>,
    directives: seq<DirectiveBinding>)

  function PlanOf(tc: Toolchain, sfc: ParseSfc.ParsedSfc): (r: Result<Plan>)
    ensures r.Err? <==> Macros.ApplyMacrosSpec(sfc.scriptSetupAst).Err?
  {
    var m :- Macros.ApplyMacrosSpec(sfc.scriptSetupAst);
    var p := Partition(m.nodes);
    var declared := DeclaredNames(tc, p.0, p.1, sfc.scriptAst);
    Ok(Plan(m, p.0, p.1, declared,
      Returns(declared, sfc.template.identifiers),
      MatchedComponents(declared, sfc.template.components),
      MatchedDirectives(declared, sfc.template.directives)))
  }

  /** Whether anything was attached to `__sfc_main` or the script exports one. */
  predicate HasBody(sfc: ParseSfc.ParsedSfc, plan: Plan)
  {
    || HasDefaultExport(sfc.scriptAst)
    || plan.macros.props.Some?
    || |plan.macros.nodes| > 0
    || |plan.components| > 0
    || |plan.directives| > 0
  }

  /** The assignments to `__sfc_main`, each present only when it has content. */
  function Injected(plan: Plan): seq<Node>
  {
    (if plan.macros.props.Some? then [AssignProperty(Main, "props", plan.macros.props.value)] else [])
    + (if |plan.macros.nodes| > 0 then [SetupAssignment(plan.setupBody, plan.returned, plan.macros.expose)] else [])
    + (if |plan.components| > 0 then [ComponentsAssignment(plan.components)] else [])
    + (if |plan.directives| > 0 then [DirectivesAssignment(plan.directives)] else [])
  }

  /** `const __sfc_main = {}`, added when `<script>` has no default export. */
  function MainDeclaration(script: seq<Node>): seq<Node>
  {
    if HasDefaultExport(script) then [] else [ConstDecl(Main, ObjectExpression([]))]
  }

  /** Everything after the extra declarations and the hoisted statements. */
  function Rest(sfc: ParseSfc.ParsedSfc, plan: Plan): seq<Node>
  {
    BodyNodes(sfc.scriptAst) + MainDeclaration(sfc.scriptAst) + Injected(plan) + [ExportDefaultDeclaration(Identifier(Main))]
  }

  /** The program before the `post` hook. */
  function Program(sfc: ParseSfc.ParsedSfc, plan: Plan): seq<Node>
  {
    (sfc.extraDeclarations + plan.hoisted) + Rest(sfc, plan)
  }

  /** `options.astTransforms.post(ast, sfc) || ast` */
  function PostTransform(transforms: Option<AstTransforms>, ast: seq<Node>, sfc: ParseSfc.ParsedSfc): seq<Node>
  {
    if transforms.Some? && transforms.value.post.Some? then
      var q := transforms.value.post.value(ast, sfc);
      if q.Some? then q.value else ast
    else ast
  }

  /** The result once the plan is known. */
  function Assembled(tc: Toolchain, sfc: ParseSfc.ParsedSfc, plan: Plan, transforms: Option<AstTransforms>): ScriptResult
  {
    if !HasBody(sfc, plan) && transforms.None? then ScriptResult(None, "")
    else
      var ast := PostTransform(transforms, Program(sfc, plan), sfc);
      ScriptResult(Some(ast), tc.generate(ast))
  }

  /** What `transformScriptSetup(sfc, options)` returns, or the error of the macros. */
  function TransformScriptSetupSpec(tc: Toolchain, sfc: ParseSfc.ParsedSfc, transforms: Option<AstTransforms>): Result<ScriptResult>
  {
    var plan :- PlanOf(tc, sfc);
    Ok(Assembled(tc, sfc, plan, transforms))
  }

  /** The four conditional pushes onto the program, each setting `hasBody`. */
  method PushAssignments(ast0: seq<Node>, hasBody0: bool, plan: Plan) returns (ast: seq<Node>, hasBody: bool)
    ensures ast == ast0 + Injected(plan)
    ensures hasBody == (hasBody0 || plan.macros.props.Some? || |plan.macros.nodes| > 0 || |plan.components| > 0 || |plan.directives| > 0)
  {
    ast, hasBody := ast0, hasBody0;
    if plan.macros.props.Some? {
      hasBody := true;
      ast := ast + [AssignProperty(Main, "props", plan.macros.props.value)];
    }
    if |plan.macros.nodes| > 0 {
      hasBody := true;
      ast := ast + [SetupAssignment(plan.setupBody, plan.returned, plan.macros.expose)];
    }
    if |plan.components| > 0 {
      hasBody := true;
      ast := ast + [ComponentsAssignment(plan.components)];
    }
    if |plan.directives| > 0 {
      hasBody := true;
      ast := ast + [DirectivesAssignment(plan.directives)];
    }
  }

  /** The macros, the partition and the name matching. */
  method ComputePlan(tc: Toolchain, sfc: ParseSfc.ParsedSfc) returns (r: Result<Plan>)
    ensures r == PlanOf(tc, sfc)
  {
    var m :- Macros.ApplyMacros(sfc.scriptSetupAst);
    var p := Partition(m.nodes);
    var hoisted, setupBody := p.0, p.1;
    var declared := DeclaredNames(tc, hoisted, setupBody, sfc.scriptAst);
    var returned := Returns(declared, sfc.template.identifiers);
    var components := MatchedComponents(declared, sfc.template.components);
    var directives := MatchedDirectives(declared, sfc.template.directives);
    r := Ok(Plan(m, hoisted, setupBody, declared, returned, components, directives));
  }

  /** The program assembly: the `hasBody` flag and the pushes onto the program. */
  method Assemble(tc: Toolchain, sfc: ParseSfc.ParsedSfc, plan: Plan, transforms: Option<AstTransforms>) returns (r: ScriptResult)
    ensures r == Assembled(tc, sfc, plan, transforms)
  {
    var bodyNodes, hasBody := ReplaceDefaultExports(sfc.scriptAst);
    var ast := sfc.extraDeclarations + plan.hoisted + bodyNodes;
    if !hasBody {
      ast := ast + [ConstDecl(Main, ObjectExpression([]))];
    }
    assert ast == (sfc.extraDeclarations + plan.hoisted) + (BodyNodes(sfc.scriptAst) + MainDeclaration(sfc.scriptAst));
    ast, hasBody := PushAssignments(ast, hasBody, plan);
    if !hasBody && transforms.None? {
      return ScriptResult(None, "");
    }
    ast := ast + [ExportDefaultDeclaration(Identifier(Main))];
    assert ast == Program(sfc, plan);
    ast := PostTransform(transforms, ast, sfc);
    r := ScriptResult(Some(ast), tc.generate(ast));
  }

  /** `transformScriptSetup(sfc, options)`. */
  method TransformScriptSetup(tc: Toolchain, sfc: ParseSfc.ParsedSfc, transforms: Option<AstTransforms>)
    returns (r: Result<ScriptResult>)
    ensures r == TransformScriptSetupSpec(tc, sfc, transforms)
  {
    var plan :- ComputePlan(tc, sfc);
    var out := Assemble(tc, sfc, plan, transforms);
    r := Ok(out);
  }

  /* ---------- what the assembled program guarantees ---------- */

  /** The `{ ast: null, code: '' }` result comes exactly when there is no default
      export, no props, no statement left in `<script setup>`, no matched
      component or directive, and no `astTransforms` option. */
  lemma NothingToDo(tc: Toolchain, sfc: ParseSfc.ParsedSfc, plan: Plan, transforms: Option<AstTransforms>)
    ensures var r := Assembled(tc, sfc, plan, transforms);
      && (r.ast.None? <==>
            && !HasDefaultExport(sfc.scriptAst)
            && plan.macros.props.None?
            && plan.macros.nodes == []
            && plan.components == []
            && plan.directives == []
            && transforms.None?)
      && (r.ast.None? ==> r.code == "")
  {
  }

  /** The program has exactly one default export, `export default __sfc_main`,
      as its last statement, whatever the two scripts held (the `<script>`
      default export is turned into the declaration of `__sfc_main`). */
  lemma SingleDefaultExport(sfc: ParseSfc.ParsedSfc, plan: Plan)
    requires forall n :: n in plan.hoisted ==> IsHoisted(n)
    requires forall n :: n in sfc.extraDeclarations ==> !n.ExportDefaultDeclaration?
    ensures var ast := Program(sfc, plan);
      && CountDefaultExports(ast) == 1
      && ast[|ast| - 1] == ExportDefaultDeclaration(Identifier(Main))
  {
    var front := (sfc.extraDeclarations + plan.hoisted) + (BodyNodes(sfc.scriptAst) + MainDeclaration(sfc.scriptAst) + Injected(plan));
    assert Program(sfc, plan) == front + [ExportDefaultDeclaration(Identifier(Main))];
    forall n | n in plan.hoisted ensures !n.ExportDefaultDeclaration? {
      HoistedNotDefaultExport(n);
    }
    BodyNodesNoDefaultExport(sfc.scriptAst);
    NoDefaultExportCounted(front);
    CountConcat(front, [ExportDefaultDeclaration(Identifier(Main))]);
    var none: seq<Node> := [];
    assert [ExportDefaultDeclaration(Identifier(Main))][..0] == none;
  }

  /** Every statement the macros keep lands exactly once: hoisted to module
      level right after the extra declarations, or inside `setup`, which exists
      whenever some statement is kept. */
  lemma StatementsPlaced(tc: Toolchain, sfc: ParseSfc.ParsedSfc)
    requires PlanOf(tc, sfc).Ok?
    ensures var plan := PlanOf(tc, sfc).value;
      var ast := Program(sfc, plan);
      && multiset(plan.hoisted) + multiset(plan.setupBody) == multiset(plan.macros.nodes)
      && ast[..|sfc.extraDeclarations| + |plan.hoisted|] == sfc.extraDeclarations + plan.hoisted
      && (|plan.macros.nodes| > 0 ==> SetupAssignment(plan.setupBody, plan.returned, plan.macros.expose) in ast)
  {
    var plan := PlanOf(tc, sfc).value;
    PartitionIsPermutation(plan.macros.nodes);
    var front := sfc.extraDeclarations + plan.hoisted;
    assert Program(sfc, plan)[..|front|] == front;
    if |plan.macros.nodes| > 0 {
      var setup := SetupAssignment(plan.setupBody, plan.returned, plan.macros.expose);
      assert setup in Injected(plan);
      assert setup in Rest(sfc, plan);
    }
  }
}
