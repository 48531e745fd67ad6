/**
 * `applyMacros` (`src/core/macros.ts`): the compiler macros `defineProps`,
 * `withDefaults`, `defineEmits` and `defineExpose` of a `<script setup>`
 * body, removed or rewritten, with the props and the exposed object they
 * declare. A thrown `Error` is an `Err` result.
 */
module Macros {
  import opened Js
  import opened Errors
  import opened BabelAst
  import opened RuntimeProps

  /** A resolved type argument: a type node, or the body of an interface. */
  datatype TypeDecl = TypeNode(t: TSType) | InterfaceBody(members: seq<TSMember>)

  /** The variables the macro handlers update. */
  datatype MacroState = MacroState(
    hasDefinePropsCall: bool,
    hasDefineEmitCall: bool,
    propsRuntimeDecl: Option<Node>,
    propsRuntimeDefaults: Option<Node>,
    propsTypeDecl: Option<TypeDecl>,
    emitsRuntimeDecl: Option<Node>,
    emitsTypeDecl: Option<TypeDecl>,
    exposeDecl: Option<Node>)

  const Initial := MacroState(false, false, None, None, None, None, None, None)

  /** `defineProps` accepts a type literal. */
  predicate IsPropsType(t: TSType)
  {
    t.TSTypeLiteral?
  }

  /** `defineEmits` accepts a function type or a type literal. */
  predicate IsEmitsType(t: TSType)
  {
    t.TSFunctionType? || t.TSTypeLiteral?
  }

  /** `isQualifiedType(node)`: an interface named `refName` gives its body; an
      alias named `refName` gives its type when that qualifies; an export is
      looked through. */
  function QualifiedIn(n: Node, refName: string, qualifier: TSType -> bool): (r: Option<TypeDecl>)
    ensures r.Some? && r.value.TypeNode? ==> qualifier(r.value.t)
  {
    match n
    case TSInterfaceDeclaration(name, members) =>
      if name == refName then Some(InterfaceBody(members)) else None
    case TSTypeAliasDeclaration(name, aliased) =>
      if name == refName && qualifier(aliased) then Some(TypeNode(aliased)) else None
    case ExportNamedDeclaration(declaration) =>
      if declaration.Some? then QualifiedIn(declaration.value, refName, qualifier) else None
    case _ => None
  }

  /** `for (const node of nodes) { ... if (qualified) return qualified }`: the
      first statement that declares `refName` suitably. */
  function FirstQualified(nodes: seq<Node>, refName: string, qualifier: TSType -> bool): (r: Option<TypeDecl>)
    ensures r.Some? ==> exists k :: 0 <= k < |nodes| && QualifiedIn(nodes[k], refName, qualifier) == r
    ensures r.None? ==> forall k :: 0 <= k < |nodes| ==> QualifiedIn(nodes[k], refName, qualifier).None?
  {
    if |nodes| == 0 then None
    else
      var q := QualifiedIn(nodes[0], refName, qualifier);
      if q.Some? then q
      else
        var rest := FirstQualified(nodes[1..], refName, qualifier);
        assert forall k :: 1 <= k < |nodes| ==> nodes[k] == nodes[1..][k - 1];
        rest
  }

  /** `resolveQualifiedType(node, qualifier)`: a qualifying type stands for
      itself; a reference by plain name is looked up among the statements. */
  function ResolveQualifiedType(nodes: seq<Node>, t: TSType, qualifier: TSType -> bool): (r: Option<TypeDecl>)
    ensures qualifier(t) ==> r == Some(TypeNode(t))
    ensures r.Some? && r.value.TypeNode? ==> qualifier(r.value.t)
    ensures !qualifier(t) && !(t.TSTypeReference? && t.typeName.TypeIdentifier?) ==> r.None?
  {
    if qualifier(t) then Some(TypeNode(t))
    else if t.TSTypeReference? && t.typeName.TypeIdentifier? then
      var r := FirstQualified(nodes, t.typeName.name, qualifier);
      r
    else None
  }

  /** `processDefineProps(node)`: whether `node` is a `defineProps` call, and the
      state once it is recorded. */
  function ProcessDefineProps(nodes: seq<Node>, st: MacroState, node: Option<Node>): (r: Result<(bool, MacroState)>)
    ensures !IsCallOf(node, "defineProps") ==> r == Ok((false, st))
    ensures IsCallOf(node, "defineProps") && st.hasDefinePropsCall ==> r == Err(DuplicateCall(DefineProps))
    ensures r.Ok? && r.value.0 ==> !st.hasDefinePropsCall && r.value.1.hasDefinePropsCall
    ensures r.Ok? && r.value.0 ==> r.value.1.propsRuntimeDecl.None? || r.value.1.propsTypeDecl == st.propsTypeDecl
  {
    if !IsCallOf(node, "defineProps") then Ok((false, st))
    else if st.hasDefinePropsCall then Err(DuplicateCall(DefineProps))
    else
      var call := node.value;
      var runtime := Argument(call, 0);
      if call.typeArgument.Some? then
        if runtime.Some? then Err(MixedArguments(DefineProps))
        else
          var decl := ResolveQualifiedType(nodes, call.typeArgument.value, IsPropsType);
          if decl.None? then Err(BadTypeArgument(DefineProps))
          else Ok((true, st.(hasDefinePropsCall := true, propsRuntimeDecl := runtime, propsTypeDecl := decl)))
      else Ok((true, st.(hasDefinePropsCall := true, propsRuntimeDecl := runtime)))
  }

  /** `processWithDefaults(node)`: the first argument must be a `defineProps`
      call without a runtime declaration; the second is the defaults. */
  function ProcessWithDefaults(nodes: seq<Node>, st: MacroState, node: Option<Node>): (r: Result<(bool, MacroState)>)
    ensures !IsCallOf(node, "withDefaults") ==> r == Ok((false, st))
    ensures IsCallOf(node, "withDefaults") && !IsCallOf(Argument(node.value, 0), "defineProps") ==> r == Err(WithDefaultsFirstArgument)
    ensures r.Ok? && r.value.0 ==> r.value.1.propsRuntimeDecl.None? && r.value.1.propsRuntimeDefaults == Argument(node.value, 1)
  {
    if !IsCallOf(node, "withDefaults") then Ok((false, st))
    else
      var call := node.value;
      var p :- ProcessDefineProps(nodes, st, Argument(call, 0));
      if p.0 then
        if p.1.propsRuntimeDecl.Some? then Err(WithDefaultsNeedsTypeBased)
        else Ok((true, p.1.(propsRuntimeDefaults := Argument(call, 1))))
      else Err(WithDefaultsFirstArgument)
  }

  /** `processDefineEmits(node)` */
  function ProcessDefineEmits(nodes: seq<Node>, st: MacroState, node: Option<Node>): (r: Result<(bool, MacroState)>)
    ensures !IsCallOf(node, "defineEmits") ==> r == Ok((false, st))
    ensures IsCallOf(node, "defineEmits") && st.hasDefineEmitCall ==> r == Err(DuplicateCall(DefineEmits))
    ensures r.Ok? && r.value.0 ==> !st.hasDefineEmitCall && r.value.1.hasDefineEmitCall
    ensures r.Ok? && r.value.0 ==> r.value.1.(hasDefineEmitCall := false, emitsRuntimeDecl := None, emitsTypeDecl := None)
                                    == st.(hasDefineEmitCall := false, emitsRuntimeDecl := None, emitsTypeDecl := None)
  {
    if !IsCallOf(node, "defineEmits") then Ok((false, st))
    else if st.hasDefineEmitCall then Err(DuplicateCall(DefineEmits))
    else
      var call := node.value;
      var runtime := Argument(call, 0);
      if call.typeArgument.Some? then
        if runtime.Some? then Err(MixedArguments(DefineEmits))
        else
          var decl := ResolveQualifiedType(nodes, call.typeArgument.value, IsEmitsType);
          if decl.None? then Err(BadTypeArgument(DefineEmits))
          else Ok((true, st.(hasDefineEmitCall := true, emitsRuntimeDecl := runtime, emitsTypeDecl := decl)))
      else Ok((true, st.(hasDefineEmitCall := true, emitsRuntimeDecl := runtime)))
  }

  /** `processDefineExpose(node)`: one call, with exactly one argument. */
  function ProcessDefineExpose(st: MacroState, node: Option<Node>): (r: Result<(bool, MacroState)>)
    ensures !IsCallOf(node, "defineExpose") ==> r == Ok((false, st))
    ensures IsCallOf(node, "defineExpose") && st.exposeDecl.Some? ==> r == Err(DuplicateCall(DefineExpose))
    ensures IsCallOf(node, "defineExpose") && st.exposeDecl.None? && |node.value.arguments| != 1 ==> r == Err(ExposeArity)
    ensures r.Ok? && r.value.0 ==> r.value.1 == st.(exposeDecl := Some(node.value.arguments[0]))
  {
    if !IsCallOf(node, "defineExpose") then Ok((false, st))
    else if st.exposeDecl.Some? then Err(DuplicateCall(DefineExpose))
    else if |node.value.arguments| != 1 then Err(ExposeArity)
    else Ok((true, st.(exposeDecl := Some(node.value.arguments[0]))))
  }

  /** The initialiser of a declarator: `defineEmits(...)` becomes `__ctx.emit`,
      `defineProps(...)` and `withDefaults(...)` become `__props`, an `await`
      is refused, anything else stays. */
  function ProcessInit(nodes: seq<Node>, st: MacroState, init: Node): Result<(Node, MacroState)>
  {
    var e :- ProcessDefineEmits(nodes, st, Some(init));
    if e.0 then Ok((Member("__ctx", "emit"), e.1))
    else
      var p :- ProcessDefineProps(nodes, e.1, Some(init));
      if p.0 then Ok((Identifier("__props"), p.1))
      else
        var w :- ProcessWithDefaults(nodes, p.1, Some(init));
        if w.0 then Ok((Identifier("__props"), w.1))
        else if init.AwaitExpression? then Err(TopLevelAwait)
        else Ok((init, w.1))
  }

  /** One declarator; one without an initialiser is left alone. */
  function ProcessDeclarator(nodes: seq<Node>, st: MacroState, d: Declarator): Result<(Declarator, MacroState)>
  {
    if d.init.None? then Ok((d, st))
    else
      var r :- ProcessInit(nodes, st, d.init.value);
      Ok((d.(init := Some(r.0)), r.1))
  }

  /** The declarators of a declaration, in order. */
  function ProcessDeclarators(nodes: seq<Node>, st: MacroState, ds: seq<Declarator>): Result<(seq<Declarator>, MacroState)>
  {
    if |ds| == 0 then Ok(([], st))
    else
      var prev :- ProcessDeclarators(nodes, st, ds[..|ds| - 1]);
      var d :- ProcessDeclarator(nodes, prev.1, ds[|ds| - 1]);
      Ok((prev.0 + [d.0], d.1))
  }

  /** The end of the callback, once the declarators are rewritten: a macro call
      statement is dropped, a top-level `await` refused, anything else kept. */
  function StatementTail(nodes: seq<Node>, st: MacroState, kept: Node, node: Node): Result<(Option<Node>, MacroState)>
  {
    var e :- ProcessDefineEmits(nodes, st, Some(node));
    if e.0 then Ok((None, e.1))
    else
      var p :- ProcessDefineProps(nodes, e.1, Some(node));
      if p.0 then Ok((None, p.1))
      else
        var x :- ProcessDefineExpose(p.1, Some(node));
        if x.0 then Ok((None, x.1))
        else if node.AwaitExpression? then Err(TopLevelAwait)
        else Ok((Some(kept), x.1))
  }

  /** The callback of `nodes.map(...)` for one statement: the statement to keep
      (`None` for a removed macro call) and the new state. */
  function ProcessStatement(nodes: seq<Node>, st: MacroState, raw: Node): Result<(Option<Node>, MacroState)>
  {
    var node := if raw.ExpressionStatement? then raw.expression else raw;
    var rewritten :-
      if node.VariableDeclaration? && !node.declare then
        var ds :- ProcessDeclarators(nodes, st, node.declarations);
        var decl := node.(declarations := ds.0);
        Ok((if raw.ExpressionStatement? then raw.(expression := decl) else decl, decl, ds.1))
      else Ok((raw, node, st));
    var (kept, node', st1) := rewritten;
    StatementTail(nodes, st1, kept, node')
  }

  /** The statements kept so far and the state, after the first `|stmts|`
      statements of `nodes`. */
  function ApplyPrefix(nodes: seq<Node>, stmts: seq<Node>): Result<(seq<Node>, MacroState)>
  {
    if |stmts| == 0 then Ok(([], Initial))
    else
      var prev :- ApplyPrefix(nodes, stmts[..|stmts| - 1]);
      var s :- ProcessStatement(nodes, prev.1, stmts[|stmts| - 1]);
      Ok((prev.0 + (if s.0.Some? then [s.0.value] else []), s.1))
  }

  /** The members of a resolved props type. */
  function DeclMembers(d: TypeDecl): seq<TSMember>
  {
    match d
    case InterfaceBody(members) => members
    case TypeNode(t) => if t.TSTypeLiteral? then t.members else []
  }

  /** `getProps()`: the runtime declaration when there is one, otherwise the
      declaration generated from the type argument. */
  function GetProps(st: MacroState): Option<Node>
  {
    if st.propsRuntimeDecl.Some? then st.propsRuntimeDecl
    else if st.propsTypeDecl.Some? then
      GenRuntimeProps(ExtractInto([], DeclMembers(st.propsTypeDecl.value)), st.propsRuntimeDefaults)
    else None
  }

  datatype MacroResult = MacroResult(nodes: seq<Node>, props: Option<Node>, expose: Option<Node>)

  /** What `applyMacros(nodes)` returns, or the error it throws. */
  function ApplyMacrosSpec(nodes: seq<Node>): Result<MacroResult>
  {
    var r :- ApplyPrefix(nodes, nodes);
    Ok(MacroResult(r.0, GetProps(r.1), r.1.exposeDecl))
  }

  /** The loop over `node.declarations`. */
  method ProcessDeclarations(nodes: seq<Node>, st0: MacroState, ds: seq<Declarator>)
    returns (r: Result<(seq<Declarator>, MacroState)>)
    ensures r == ProcessDeclarators(nodes, st0, ds)
  {
    var st := st0;
    var out: seq<Declarator> := [];
    for i := 0 to |ds|
      invariant ProcessDeclarators(nodes, st0, ds[..i]) == Ok((out, st))
    {
      assert ds[..i + 1][..i] == ds[..i];
      var d := ProcessDeclarator(nodes, st, ds[i]);
      if d.Err? {
        FailurePersists(nodes, st0, ds, i + 1);
        return d.PropagateFailure();
      }
      out, st := out + [d.value.0], d.value.1;
    }
    assert ds[..|ds|] == ds;
    r := Ok((out, st));
  }

  /** A declarator that fails makes the whole declaration fail with its error. */
  lemma {:induction false} FailurePersists(nodes: seq<Node>, st0: MacroState, ds: seq<Declarator>, k: nat)
    requires 0 < k <= |ds|
    requires ProcessDeclarators(nodes, st0, ds[..k]).Err?
    ensures ProcessDeclarators(nodes, st0, ds) == ProcessDeclarators(nodes, st0, ds[..k])
    decreases |ds| - k
  {
    if k < |ds| {
      assert ds[..k + 1][..k] == ds[..k];
      FailurePersists(nodes, st0, ds, k + 1);
    } else {
      assert ds[..k] == ds;
    }
  }

  /** A statement that fails makes the whole body fail with its error. */
  lemma {:induction false} StatementFailurePersists(nodes: seq<Node>, stmts: seq<Node>, k: nat)
    requires 0 < k <= |stmts|
    requires ApplyPrefix(nodes, stmts[..k]).Err?
    ensures ApplyPrefix(nodes, stmts) == ApplyPrefix(nodes, stmts[..k])
    decreases |stmts| - k
  {
    if k < |stmts| {
      assert stmts[..k + 1][..k] == stmts[..k];
      StatementFailurePersists(nodes, stmts, k + 1);
    } else {
      assert stmts[..k] == stmts;
    }
  }

  /** The callback of `nodes.map(...)`, rewriting the declarators in place. */
  method ProcessOne(nodes: seq<Node>, st: MacroState, raw: Node) returns (step: Result<(Option<Node>, MacroState)>)
    ensures step == ProcessStatement(nodes, st, raw)
  {
    var node := if raw.ExpressionStatement? then raw.expression else raw;
    var keptNode := raw;
    var st1 := st;
    if node.VariableDeclaration? && !node.declare {
      var ds := ProcessDeclarations(nodes, st, node.declarations);
      if ds.Err? {
        return ds.PropagateFailure();
      }
      node := node.(declarations := ds.value.0);
      keptNode := if raw.ExpressionStatement? then raw.(expression := node) else node;
      st1 := ds.value.1;
    }
    step := StatementTail(nodes, st1, keptNode, node);
  }

  /** `applyMacros(nodes)`: the `map` over the statements, then `filter(Boolean)`. */
  method ApplyMacros(nodes: seq<Node>) returns (r: Result<MacroResult>)
    ensures r == ApplyMacrosSpec(nodes)
  {
    var st := Initial;
    var kept: seq<Node> := [];
    for i := 0 to |nodes|
      invariant ApplyPrefix(nodes, nodes[..i]) == Ok((kept, st))
    {
      assert nodes[..i + 1][..i] == nodes[..i];
      var step := ProcessOne(nodes, st, nodes[i]);
      if step.Err? {
        StatementFailurePersists(nodes, nodes, i + 1);
        return step.PropagateFailure();
      }
      var kept' := kept + if step.value.0.Some? then [step.value.0.value] else [];
      assert nodes[..i + 1][i] == nodes[i];
      assert ApplyPrefix(nodes, nodes[..i + 1]) == Ok((kept', step.value.1));
      kept, st := kept', step.value.1;
    }
    assert nodes[..|nodes|] == nodes;
    r := Ok(MacroResult(kept, GetProps(st), st.exposeDecl));
  }

  /* ---------- what applyMacros guarantees ---------- */

  /** What the recorded declarations always satisfy: each macro's results are
      recorded only with its call, a runtime and a type-based declaration never
      coexist, defaults go with a type-based (or empty) `defineProps`, and a
      resolved type is of the kind the macro accepts. */
  predicate Invariant(st: MacroState)
  {
    && (st.propsRuntimeDecl.Some? || st.propsTypeDecl.Some? || st.propsRuntimeDefaults.Some? ==> st.hasDefinePropsCall)
    && !(st.propsRuntimeDecl.Some? && st.propsTypeDecl.Some?)
    && (st.propsRuntimeDefaults.Some? ==> st.propsRuntimeDecl.None?)
    && (st.propsTypeDecl.Some? && st.propsTypeDecl.value.TypeNode? ==> IsPropsType(st.propsTypeDecl.value.t))
    && (st.emitsRuntimeDecl.Some? || st.emitsTypeDecl.Some? ==> st.hasDefineEmitCall)
    && !(st.emitsRuntimeDecl.Some? && st.emitsTypeDecl.Some?)
    && (st.emitsTypeDecl.Some? && st.emitsTypeDecl.value.TypeNode? ==> IsEmitsType(st.emitsTypeDecl.value.t))
  }

  lemma DefinePropsKeepsInvariant(nodes: seq<Node>, st: MacroState, node: Option<Node>)
    requires Invariant(st)
    ensures var r := ProcessDefineProps(nodes, st, node); r.Ok? ==> Invariant(r.value.1)
  {
    if IsCallOf(node, "defineProps") && !st.hasDefinePropsCall {
      var runtime := Argument(node.value, 0);
      if node.value.typeArgument.Some? && runtime.None? {
        var decl := ResolveQualifiedType(nodes, node.value.typeArgument.value, IsPropsType);
        assert decl.Some? && decl.value.TypeNode? ==> IsPropsType(decl.value.t);
      }
    }
  }

  lemma WithDefaultsKeepsInvariant(nodes: seq<Node>, st: MacroState, node: Option<Node>)
    requires Invariant(st)
    ensures var r := ProcessWithDefaults(nodes, st, node); r.Ok? ==> Invariant(r.value.1)
  {
    if IsCallOf(node, "withDefaults") {
      DefinePropsKeepsInvariant(nodes, st, Argument(node.value, 0));
    }
  }

  lemma DefineEmitsKeepsInvariant(nodes: seq<Node>, st: MacroState, node: Option<Node>)
    requires Invariant(st)
    ensures var r := ProcessDefineEmits(nodes, st, node); r.Ok? ==> Invariant(r.value.1)
  {
    if IsCallOf(node, "defineEmits") && !st.hasDefineEmitCall {
      var runtime := Argument(node.value, 0);
      if node.value.typeArgument.Some? && runtime.None? {
        var decl := ResolveQualifiedType(nodes, node.value.typeArgument.value, IsEmitsType);
        assert decl.Some? && decl.value.TypeNode? ==> IsEmitsType(decl.value.t);
      }
    }
  }

  lemma InitKeepsInvariant(nodes: seq<Node>, st: MacroState, init: Node)
    requires Invariant(st)
    ensures var r := ProcessInit(nodes, st, init); r.Ok? ==> Invariant(r.value.1)
  {
    DefineEmitsKeepsInvariant(nodes, st, Some(init));
    var e := ProcessDefineEmits(nodes, st, Some(init));
    if e.Ok? && !e.value.0 {
      DefinePropsKeepsInvariant(nodes, e.value.1, Some(init));
      var p := ProcessDefineProps(nodes, e.value.1, Some(init));
      if p.Ok? && !p.value.0 {
        WithDefaultsKeepsInvariant(nodes, p.value.1, Some(init));
      }
    }
  }

  lemma {:induction false} DeclaratorsKeepInvariant(nodes: seq<Node>, st: MacroState, ds: seq<Declarator>)
    requires Invariant(st)
    ensures var r := ProcessDeclarators(nodes, st, ds); r.Ok? ==> Invariant(r.value.1)
  {
    if |ds| != 0 {
      DeclaratorsKeepInvariant(nodes, st, ds[..|ds| - 1]);
      var prev := ProcessDeclarators(nodes, st, ds[..|ds| - 1]);
      if prev.Ok? && ds[|ds| - 1].init.Some? {
        InitKeepsInvariant(nodes, prev.value.1, ds[|ds| - 1].init.value);
      }
    }
  }

  lemma TailKeepsInvariant(nodes: seq<Node>, st: MacroState, kept: Node, node: Node)
    requires Invariant(st)
    ensures var r := StatementTail(nodes, st, kept, node); r.Ok? ==> Invariant(r.value.1)
  {
    DefineEmitsKeepsInvariant(nodes, st, Some(node));
    var e := ProcessDefineEmits(nodes, st, Some(node));
    if e.Ok? && !e.value.0 {
      DefinePropsKeepsInvariant(nodes, e.value.1, Some(node));
      var p := ProcessDefineProps(nodes, e.value.1, Some(node));
      if p.Ok? && !p.value.0 {
        DefineExposeKeepsInvariant(p.value.1, Some(node));
      }
    }
  }

  lemma DefineExposeKeepsInvariant(st: MacroState, node: Option<Node>)
    requires Invariant(st)
    ensures var r := ProcessDefineExpose(st, node); r.Ok? ==> Invariant(r.value.1)
  {
  }

  lemma StatementKeepsInvariant(nodes: seq<Node>, st: MacroState, raw: Node)
    requires Invariant(st)
    ensures var r := ProcessStatement(nodes, st, raw); r.Ok? ==> Invariant(r.value.1)
  {
    var node := if raw.ExpressionStatement? then raw.expression else raw;
    if node.VariableDeclaration? && !node.declare {
      DeclaratorsKeepInvariant(nodes, st, node.declarations);
      var ds := ProcessDeclarators(nodes, st, node.declarations);
      if ds.Ok? {
        var decl := node.(declarations := ds.value.0);
        TailKeepsInvariant(nodes, ds.value.1, if raw.ExpressionStatement? then raw.(expression := decl) else decl, decl);
      }
    } else {
      TailKeepsInvariant(nodes, st, raw, node);
    }
  }

  /** The invariant holds after every statement, and so for the result. */
  lemma {:induction false} ApplyKeepsInvariant(nodes: seq<Node>, stmts: seq<Node>)
    ensures var r := ApplyPrefix(nodes, stmts); r.Ok? ==> Invariant(r.value.1)
  {
    if |stmts| != 0 {
      ApplyKeepsInvariant(nodes, stmts[..|stmts| - 1]);
      var prev := ApplyPrefix(nodes, stmts[..|stmts| - 1]);
      if prev.Ok? {
        StatementKeepsInvariant(nodes, prev.value.1, stmts[|stmts| - 1]);
      }
    }
  }

  /** The props are the runtime declaration exactly when `defineProps` was given
      one; otherwise they come from the type argument. */
  lemma PropsSource(nodes: seq<Node>)
    requires ApplyPrefix(nodes, nodes).Ok?
    ensures var st := ApplyPrefix(nodes, nodes).value.1;
      && (st.propsRuntimeDecl.Some? ==> ApplyMacrosSpec(nodes).value.props == st.propsRuntimeDecl && st.propsTypeDecl.None?)
      && (st.propsRuntimeDecl.None? && st.propsTypeDecl.None? ==> ApplyMacrosSpec(nodes).value.props.None?)
  {
    ApplyKeepsInvariant(nodes, nodes);
  }

  /** A statement that is, or declares a variable initialised by, `await`. */
  predicate IsTopLevelAwait(raw: Node)
  {
    var node := if raw.ExpressionStatement? then raw.expression else raw;
    || node.AwaitExpression?
    || (node.VariableDeclaration? && !node.declare && exists d :: d in node.declarations && d.init.Some? && d.init.value.AwaitExpression?)
  }

  lemma InitRefusesAwait(nodes: seq<Node>, st: MacroState, init: Node)
    requires init.AwaitExpression?
    ensures ProcessInit(nodes, st, init) == Err(TopLevelAwait)
  {
  }

  lemma {:induction false} DeclaratorsRefuseAwait(nodes: seq<Node>, st: MacroState, ds: seq<Declarator>)
    requires ProcessDeclarators(nodes, st, ds).Ok?
    ensures forall d :: d in ds && d.init.Some? ==> !d.init.value.AwaitExpression?
  {
    if |ds| != 0 {
      var p, last := ds[..|ds| - 1], ds[|ds| - 1];
      var prev := ProcessDeclarators(nodes, st, p);
      assert prev.Ok?;
      DeclaratorsRefuseAwait(nodes, st, p);
      if last.init.Some? && last.init.value.AwaitExpression? {
        InitRefusesAwait(nodes, prev.value.1, last.init.value);
        assert false;
      }
      forall d | d in ds && d.init.Some? ensures !d.init.value.AwaitExpression? {
        if d != last {
          assert ds == p + [last];
          assert d in p;
        }
      }
    }
  }

  lemma TailRefusesAwait(nodes: seq<Node>, st: MacroState, kept: Node, node: Node)
    requires node.AwaitExpression?
    ensures StatementTail(nodes, st, kept, node) == Err(TopLevelAwait)
  {
  }

  /** One statement that passes is not a top-level `await`. */
  lemma StatementRefusesAwait(nodes: seq<Node>, st: MacroState, raw: Node)
    requires ProcessStatement(nodes, st, raw).Ok?
    ensures !IsTopLevelAwait(raw)
  {
    var node := if raw.ExpressionStatement? then raw.expression else raw;
    if node.VariableDeclaration? && !node.declare {
      DeclaratorsRefuseAwait(nodes, st, node.declarations);
    } else if node.AwaitExpression? {
      TailRefusesAwait(nodes, st, raw, node);
    }
  }

  /** A body that passes has no top-level `await`. */
  lemma {:induction false} NoTopLevelAwait(nodes: seq<Node>, stmts: seq<Node>)
    requires ApplyPrefix(nodes, stmts).Ok?
    ensures forall k :: 0 <= k < |stmts| ==> !IsTopLevelAwait(stmts[k])
  {
    if |stmts| != 0 {
      var p := stmts[..|stmts| - 1];
      var prev := ApplyPrefix(nodes, p);
      assert prev.Ok?;
      NoTopLevelAwait(nodes, p);
      StatementRefusesAwait(nodes, prev.value.1, stmts[|stmts| - 1]);
      forall k | 0 <= k < |stmts| ensures !IsTopLevelAwait(stmts[k]) {
        if k < |p| {
          assert stmts[k] == p[k];
        }
      }
    }
  }

  /** A statement that is a bare `defineProps`, `defineEmits` or `defineExpose` call. */
  predicate IsMacroStatement(raw: Node)
  {
    var node := Some(if raw.ExpressionStatement? then raw.expression else raw);
    IsCallOf(node, "defineProps") || IsCallOf(node, "defineEmits") || IsCallOf(node, "defineExpose")
  }

  /** No macro call statement survives. */
  lemma {:induction false} MacroStatementsRemoved(nodes: seq<Node>, stmts: seq<Node>)
    requires ApplyPrefix(nodes, stmts).Ok?
    ensures forall n :: n in ApplyPrefix(nodes, stmts).value.0 ==> !IsMacroStatement(n)
  {
    if |stmts| != 0 {
      var p := stmts[..|stmts| - 1];
      var prev := ApplyPrefix(nodes, p);
      assert prev.Ok?;
      MacroStatementsRemoved(nodes, p);
      StatementKeptNotMacro(nodes, prev.value.1, stmts[|stmts| - 1]);
    }
  }

  /** A statement the callback keeps is not a macro call statement. */
  lemma StatementKeptNotMacro(nodes: seq<Node>, st: MacroState, raw: Node)
    ensures var r := ProcessStatement(nodes, st, raw);
      r.Ok? && r.value.0.Some? ==> !IsMacroStatement(r.value.0.value)
  {
    var node := if raw.ExpressionStatement? then raw.expression else raw;
    if !(node.VariableDeclaration? && !node.declare) && IsMacroStatement(raw) {
      assert ProcessStatement(nodes, st, raw) == StatementTail(nodes, st, raw, node);
      MacroTailDropped(nodes, st, raw, node);
    }
  }

  /** A macro call statement is dropped or refused. */
  lemma MacroTailDropped(nodes: seq<Node>, st: MacroState, kept: Node, node: Node)
    requires IsCallOf(Some(node), "defineProps") || IsCallOf(Some(node), "defineEmits") || IsCallOf(Some(node), "defineExpose")
    ensures var r := StatementTail(nodes, st, kept, node); r.Ok? ==> r.value.0.None?
  {
  }

  /** An initialiser the macros leave alone. */
  predicate PlainInit(init: Node)
  {
    !IsCallOf(Some(init), "defineProps") && !IsCallOf(Some(init), "defineEmits")
    && !IsCallOf(Some(init), "withDefaults") && !init.AwaitExpression?
  }

  /** A statement the macros leave alone. */
  predicate PlainStatement(raw: Node)
  {
    var node := if raw.ExpressionStatement? then raw.expression else raw;
    && !IsMacroStatement(raw)
    && !node.AwaitExpression?
    && (node.VariableDeclaration? && !node.declare ==>
          forall d :: d in node.declarations && d.init.Some? ==> PlainInit(d.init.value))
  }

  lemma {:induction false} PlainDeclarators(nodes: seq<Node>, st: MacroState, ds: seq<Declarator>)
    requires forall d :: d in ds && d.init.Some? ==> PlainInit(d.init.value)
    ensures ProcessDeclarators(nodes, st, ds) == Ok((ds, st))
  {
    if |ds| != 0 {
      var p := ds[..|ds| - 1];
      PlainDeclarators(nodes, st, p);
      assert ds == p + [ds[|ds| - 1]];
    }
  }

  /** A body without macros or `await` passes through unchanged, with no props
      and nothing exposed. */
  lemma {:induction false} PlainBodyUnchanged(nodes: seq<Node>, stmts: seq<Node>)
    requires forall k :: 0 <= k < |stmts| ==> PlainStatement(stmts[k])
    ensures ApplyPrefix(nodes, stmts) == Ok((stmts, Initial))
  {
    if |stmts| != 0 {
      var p := stmts[..|stmts| - 1];
      PlainBodyUnchanged(nodes, p);
      var raw := stmts[|stmts| - 1];
      var node := if raw.ExpressionStatement? then raw.expression else raw;
      if node.VariableDeclaration? && !node.declare {
        PlainDeclarators(nodes, Initial, node.declarations);
        assert node.(declarations := node.declarations) == node;
      }
      assert stmts == p + [raw];
    }
  }

  /** `const props = defineProps(decl)` becomes `const props = __props`, and the
      props are `decl`. */
  lemma RuntimePropsDeclaration(decl: Node)
    ensures var call := CallExpression(Identifier("defineProps"), [decl], None, false);
      ApplyMacrosSpec([ConstDecl("props", call)])
        == Ok(MacroResult([ConstDecl("props", Identifier("__props"))], Some(decl), None))
  {
    var call := CallExpression(Identifier("defineProps"), [decl], None, false);
    var stmts := [ConstDecl("props", call)];
    var ds := [Declarator(Identifier("props"), Some(call))];
    assert ds[..0] == [] && stmts[..0] == [];
    var st := Initial.(hasDefinePropsCall := true, propsRuntimeDecl := Some(decl));
    assert ProcessDefineEmits(stmts, Initial, Some(call)) == Ok((false, Initial));
    assert ProcessDefineProps(stmts, Initial, Some(call)) == Ok((true, st));
    assert ProcessInit(stmts, Initial, call) == Ok((Identifier("__props"), st));
    var d' := Declarator(Identifier("props"), Some(Identifier("__props")));
    assert ProcessDeclarator(stmts, Initial, ds[0]) == Ok((d', st));
    assert ProcessDeclarators(stmts, Initial, ds[..0]) == Ok(([], Initial));
    assert ds[|ds| - 1] == ds[0];
    var none: seq<Declarator> := [];
    assert none + [d'] == [d'];
    assert ProcessDeclarators(stmts, Initial, ds) == Ok(([d'], st));
    var after := ConstDecl("props", Identifier("__props"));
    assert StatementTail(stmts, st, after, after) == Ok((Some(after), st));
    assert ProcessStatement(stmts, Initial, stmts[0]) == Ok((Some(after), st));
    assert ApplyPrefix(stmts, stmts[..0]) == Ok(([], Initial));
    assert stmts[|stmts| - 1] == stmts[0];
    var empty: seq<Node> := [];
    assert empty + [after] == [after];
    assert ApplyPrefix(stmts, stmts) == Ok(([after], st));
  }

  /** A second `defineProps()` call is refused. */
  lemma DuplicateDefineProps()
    ensures var call := ExpressionStatement(CallExpression(Identifier("defineProps"), [], None, false));
      ApplyMacrosSpec([call, call]) == Err(DuplicateCall(DefineProps))
  {
    var call := ExpressionStatement(CallExpression(Identifier("defineProps"), [], None, false));
    var c := call.expression;
    var stmts := [call, call];
    assert stmts[..1] == [call] && stmts[..1][..0] == [];
    var st := Initial.(hasDefinePropsCall := true);
    assert ProcessDefineEmits(stmts, Initial, Some(c)) == Ok((false, Initial));
    assert ProcessDefineProps(stmts, Initial, Some(c)) == Ok((true, st));
    assert ProcessStatement(stmts, Initial, call) == Ok((None, st));
    assert ApplyPrefix(stmts, stmts[..1][..0]) == Ok(([], Initial));
    assert stmts[..1][0] == call;
    var empty: seq<Node> := [];
    assert empty + [] == [];
    assert ApplyPrefix(stmts, stmts[..1]) == Ok(([], st));
    assert ProcessDefineEmits(stmts, st, Some(c)) == Ok((false, st));
    assert ProcessStatement(stmts, st, call) == Err(DuplicateCall(DefineProps));
  }
}
