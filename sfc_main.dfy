/**
 * The component object `__sfc_main` both versions of `transformScriptSetup`
 * build (`src/core/transformScriptSetup.ts`, `src/transformScriptSetup.ts`):
 * the `<script>` default export turned into its declaration, the components
 * assignment, and a count of the default exports of a program.
 */
module SfcMain {
  import opened BabelAst

  /** The name of the component object the program builds. */
  const Main := "__sfc_main"

  /** `export default X` becomes `const __sfc_main = X`. */
  function ReplaceDefaultExport(n: Node): Node
  {
    if n.ExportDefaultDeclaration? then ConstDecl(Main, n.exported) else n
  }

  predicate HasDefaultExport(script: seq<Node>)
  {
    exists k :: 0 <= k < |script| && script[k].ExportDefaultDeclaration?
  }

  /** The `<script>` program with its default export replaced. */
  function BodyNodes(script: seq<Node>): (r: seq<Node>)
    ensures |r| == |script|
    ensures forall k :: 0 <= k < |script| ==> r[k] == ReplaceDefaultExport(script[k])
  {
    seq(|script|, k requires 0 <= k < |script| => ReplaceDefaultExport(script[k]))
  }

  /** `__sfc_main.components = Object.assign({ A, B }, __sfc_main.components)` */
  function ComponentsAssignment(components: seq<string>): Node
  {
    AssignProperty(Main, "components", ObjectAssign(ShorthandObject(components), Member(Main, "components")))
  }

  /** The pass over the `<script>` program that replaces the default export,
      noting whether it met one. */
  method ReplaceDefaultExports(script: seq<Node>) returns (bodyNodes: seq<Node>, hasBody: bool)
    ensures bodyNodes == BodyNodes(script)
    ensures hasBody == HasDefaultExport(script)
  {
    hasBody := false;
    bodyNodes := [];
    for i := 0 to |script|
      invariant |bodyNodes| == i
      invariant forall k :: 0 <= k < i ==> bodyNodes[k] == ReplaceDefaultExport(script[k])
      invariant hasBody <==> exists k :: 0 <= k < i && script[k].ExportDefaultDeclaration?
    {
      var node := script[i];
      if node.ExportDefaultDeclaration? {
        hasBody := true;
        bodyNodes := bodyNodes + [ConstDecl(Main, node.exported)];
      } else {
        bodyNodes := bodyNodes + [node];
      }
    }
  }

  function CountDefaultExports(ns: seq<Node>): (c: nat)
    ensures c <= |ns|
  {
    if |ns| == 0 then 0
    else CountDefaultExports(ns[..|ns| - 1]) + (if ns[|ns| - 1].ExportDefaultDeclaration? then 1 else 0)
  }

  lemma {:induction false} CountConcat(a: seq<Node>, b: seq<Node>)
    ensures CountDefaultExports(a + b) == CountDefaultExports(a) + CountDefaultExports(b)
  {
    if |b| == 0 {
      assert a + b == a;
    } else {
      var b', x := b[..|b| - 1], b[|b| - 1];
      CountConcat(a, b');
      assert (a + b)[..|a + b| - 1] == a + b';
      assert (a + b)[|a + b| - 1] == x;
      assert CountDefaultExports(a + b) == CountDefaultExports(a + b') + (if x.ExportDefaultDeclaration? then 1 else 0);
      assert CountDefaultExports(b) == CountDefaultExports(b') + (if x.ExportDefaultDeclaration? then 1 else 0);
    }
  }

  lemma {:induction false} NoDefaultExportCounted(ns: seq<Node>)
    requires forall n :: n in ns ==> !n.ExportDefaultDeclaration?
    ensures CountDefaultExports(ns) == 0
  {
    if |ns| != 0 {
      assert ns[|ns| - 1] in ns;
      NoDefaultExportCounted(ns[..|ns| - 1]);
    }
  }

  lemma {:induction false} BodyNodesNoDefaultExport(script: seq<Node>)
    ensures forall n :: n in BodyNodes(script) ==> !n.ExportDefaultDeclaration?
  {
    forall n | n in BodyNodes(script) ensures !n.ExportDefaultDeclaration? {
      var k :| 0 <= k < |script| && BodyNodes(script)[k] == n;
    }
  }
}
