/**
 * The older `applyMacros` (`src/macros.ts`). It shares the handlers of
 * `defineProps`, `withDefaults` and `defineEmits` with the current one, refuses
 * `defineExpose` outright, has no `await` check, and its props are only ever
 * the runtime declaration.
 */
module LegacyMacros {
  import opened Js
  import opened Errors
  import opened BabelAst
  import opened Macros

  /** `processDefineExpose(node)`: Vue 2 has no `expose`. */
  function ProcessDefineExpose(node: Node): (r: Result<bool>)
    ensures r.Err? <==> IsCallOf(Some(node), "defineExpose")
    ensures r.Err? ==> r.error == ExposeUnsupported
    ensures r.Ok? ==> !r.value
  {
    if IsCallOf(Some(node), "defineExpose") then Err(ExposeUnsupported) else Ok(false)
  }

  /** A declarator's initialiser: as in the current version, without the check
      for `await`. */
  function ProcessInit(nodes: seq<Node>, st: MacroState, init: Node): (r: Result<(Node, MacroState)>)
    ensures r != Err(ExposeUnsupported)
  {
    var e :- ProcessDefineEmits(nodes, st, Some(init));
    if e.0 then Ok((Member("__ctx", "emit"), e.1))
    else
      var p :- ProcessDefineProps(nodes, e.1, Some(init));
      if p.0 then Ok((Identifier("__props"), p.1))
      else
        var w :- ProcessWithDefaults(nodes, p.1, Some(init));
        if w.0 then Ok((Identifier("__props"), w.1))
        else Ok((init, w.1))
  }

  function ProcessDeclarator(nodes: seq<Node>, st: MacroState, d: Declarator): Result<(Declarator, MacroState)>
  {
    if d.init.None? then Ok((d, st))
    else
      var r :- ProcessInit(nodes, st, d.init.value);
      Ok((d.(init := Some(r.0)), r.1))
  }

  function ProcessDeclarators(nodes: seq<Node>, st: MacroState, ds: seq<Declarator>): (r: Result<(seq<Declarator>, MacroState)>)
    ensures r != Err(ExposeUnsupported)
  {
    if |ds| == 0 then Ok(([], st))
    else
      var prev :- ProcessDeclarators(nodes, st, ds[..|ds| - 1]);
      var d :- ProcessDeclarator(nodes, prev.1, ds[|ds| - 1]);
      Ok((prev.0 + [d.0], d.1))
  }

  /** The macro test at the end of the callback, applied to `target`: a macro
      call is dropped (`None`), `defineExpose` refused, anything else kept. */
  function StatementTail(nodes: seq<Node>, st: MacroState, kept: Node, target: Node): Result<(Option<Node>, MacroState)>
  {
    var e :- ProcessDefineEmits(nodes, st, Some(target));
    if e.0 then Ok((None, e.1))
    else
      var p :- ProcessDefineProps(nodes, e.1, Some(target));
      if p.0 then Ok((None, p.1))
      else
        var x :- ProcessDefineExpose(target);
        Ok((Some(kept), p.1))
  }

  /** The declarators of a non-`declare` variable declaration, rewritten. */
  function RewriteDeclaration(nodes: seq<Node>, st: MacroState, node: Node): Result<(Node, MacroState)>
  {
    if node.VariableDeclaration? && !node.declare then
      var ds :- ProcessDeclarators(nodes, st, node.declarations);
      Ok((node.(declarations := ds.0), ds.1))
    else Ok((node, st))
  }

  /** The callback of `nodes.map(...)` as written: the macro test looks at the
      statement itself, which is never a call. */
  function StatementAsWritten(nodes: seq<Node>, st: MacroState, node: Node): Result<(Option<Node>, MacroState)>
  {
    var r :- RewriteDeclaration(nodes, st, node);
    StatementTail(nodes, r.1, r.0, r.0)
  }

  /** The callback with the macro test looking inside an expression statement,
      as the current `applyMacros` does. */
  function Statement(nodes: seq<Node>, st: MacroState, node: Node): Result<(Option<Node>, MacroState)>
  {
    var r :- RewriteDeclaration(nodes, st, node);
    StatementTail(nodes, r.1, r.0, if r.0.ExpressionStatement? then r.0.expression else r.0)
  }

  datatype LegacyMacroResult = LegacyMacroResult(nodes: seq<Node>, props: Option<Node>)

  function PrefixAsWritten(nodes: seq<Node>, stmts: seq<Node>): Result<(seq<Node>, MacroState)>
  {
    if |stmts| == 0 then Ok(([], Initial))
    else
      var prev :- PrefixAsWritten(nodes, stmts[..|stmts| - 1]);
      var s :- StatementAsWritten(nodes, prev.1, stmts[|stmts| - 1]);
      Ok((prev.0 + (if s.0.Some? then [s.0.value] else []), s.1))
  }

  /** `applyMacros(nodes)` of `src/macros.ts` as written. */
  function ApplyMacrosAsWritten(nodes: seq<Node>): Result<LegacyMacroResult>
  {
    var r :- PrefixAsWritten(nodes, nodes);
    Ok(LegacyMacroResult(r.0, r.1.propsRuntimeDecl))
  }

  function Prefix(nodes: seq<Node>, stmts: seq<Node>): Result<(seq<Node>, MacroState)>
  {
    if |stmts| == 0 then Ok(([], Initial))
    else
      var prev :- Prefix(nodes, stmts[..|stmts| - 1]);
      var s :- Statement(nodes, prev.1, stmts[|stmts| - 1]);
      Ok((prev.0 + (if s.0.Some? then [s.0.value] else []), s.1))
  }

  /** `applyMacros(nodes)` with the macro test on the expression of a statement. */
  function ApplyMacrosSpec(nodes: seq<Node>): Result<LegacyMacroResult>
  {
    var r :- Prefix(nodes, nodes);
    Ok(LegacyMacroResult(r.0, r.1.propsRuntimeDecl))
  }

  /** As written, a `defineExpose(x)` statement is neither refused nor removed,
      and a `defineProps(x)` statement is kept and declares no props. */
  lemma BareMacroStatementsIgnored(x: Node)
    ensures var s := ExpressionStatement(CallExpression(Identifier("defineExpose"), [x], None, false));
      ApplyMacrosAsWritten([s]) == Ok(LegacyMacroResult([s], None))
    ensures var s := ExpressionStatement(CallExpression(Identifier("defineProps"), [x], None, false));
      ApplyMacrosAsWritten([s]) == Ok(LegacyMacroResult([s], None))
  {
    LoneStatementKeptAsWritten(ExpressionStatement(CallExpression(Identifier("defineExpose"), [x], None, false)));
    LoneStatementKeptAsWritten(ExpressionStatement(CallExpression(Identifier("defineProps"), [x], None, false)));
  }

  /** As written, an expression statement on its own is kept as it is. */
  lemma LoneStatementKeptAsWritten(s: Node)
    requires s.ExpressionStatement?
    ensures ApplyMacrosAsWritten([s]) == Ok(LegacyMacroResult([s], None))
  {
    var ss := [s];
    ExpressionStatementKeptAsWritten(ss, Initial, s);
    assert ss[..0] == [] && ss[0] == s;
    var empty: seq<Node> := [];
    assert empty + [s] == ss;
    assert PrefixAsWritten(ss, ss) == Ok((ss, Initial));
  }

  /** As written, the callback keeps an expression statement and leaves the
      state alone, whatever the statement calls. */
  lemma ExpressionStatementKeptAsWritten(nodes: seq<Node>, st: MacroState, s: Node)
    requires s.ExpressionStatement?
    ensures StatementAsWritten(nodes, st, s) == Ok((Some(s), st))
  {
    assert RewriteDeclaration(nodes, st, s) == Ok((s, st));
    assert !IsCallOf(Some(s), "defineEmits") && !IsCallOf(Some(s), "defineProps") && !IsCallOf(Some(s), "defineExpose");
  }

  /** As written, no statement list Babel can produce is ever refused for
      `defineExpose`: the statements it tests are never calls. */
  lemma {:induction false} ExposeNeverRefusedAsWritten(nodes: seq<Node>, stmts: seq<Node>)
    requires forall k :: 0 <= k < |stmts| ==> !IsExpression(stmts[k])
    ensures PrefixAsWritten(nodes, stmts) != Err(ExposeUnsupported)
  {
    if |stmts| != 0 {
      var p := stmts[..|stmts| - 1];
      assert forall k :: 0 <= k < |p| ==> p[k] == stmts[k];
      ExposeNeverRefusedAsWritten(nodes, p);
      var prev := PrefixAsWritten(nodes, p);
      if prev.Ok? {
        var last := stmts[|stmts| - 1];
        assert !IsExpression(last);
        var r := RewriteDeclaration(nodes, prev.value.1, last);
        if r.Ok? {
          assert !r.value.0.CallExpression?;
        }
      }
    }
  }

  /** With the test on the expression, `defineExpose(x);` is refused. */
  lemma BareExposeRefused(x: Node)
    ensures var s := ExpressionStatement(CallExpression(Identifier("defineExpose"), [x], None, false));
      ApplyMacrosSpec([s]) == Err(ExposeUnsupported)
  {
    var e := ExpressionStatement(CallExpression(Identifier("defineExpose"), [x], None, false));
    assert Statement([e], Initial, e) == Err(ExposeUnsupported);
    var es := [e];
    assert es[..0] == [];
    assert Prefix([e], es) == Err(ExposeUnsupported);
  }

  /** A statement that is a bare `defineProps`, `defineEmits` or `defineExpose` call. */
  predicate IsMacroStatement(raw: Node)
  {
    var node := Some(if raw.ExpressionStatement? then raw.expression else raw);
    IsCallOf(node, "defineProps") || IsCallOf(node, "defineEmits") || IsCallOf(node, "defineExpose")
  }

  /** A body that passes keeps no macro call statement and holds no
      `defineExpose` statement at all. */
  lemma {:induction false} MacroStatementsRemoved(nodes: seq<Node>, stmts: seq<Node>)
    requires Prefix(nodes, stmts).Ok?
    ensures forall n :: n in Prefix(nodes, stmts).value.0 ==> !IsMacroStatement(n)
    ensures forall k :: 0 <= k < |stmts| ==> !IsCallOf(Some(if stmts[k].ExpressionStatement? then stmts[k].expression else stmts[k]), "defineExpose")
  {
    if |stmts| != 0 {
      var p := stmts[..|stmts| - 1];
      MacroStatementsRemoved(nodes, p);
      assert forall k :: 0 <= k < |p| ==> stmts[k] == p[k];
    }
  }

  /** The props are the runtime declaration given to `defineProps`, if any: a
      type argument is accepted but generates nothing. */
  lemma PropsAreRuntimeOnly(nodes: seq<Node>)
    requires ApplyMacrosAsWritten(nodes).Ok?
    ensures PrefixAsWritten(nodes, nodes).value.1.propsTypeDecl.Some? ==> ApplyMacrosAsWritten(nodes).value.props.None?
    ensures ApplyMacrosAsWritten(nodes).value.props == PrefixAsWritten(nodes, nodes).value.1.propsRuntimeDecl
  {
    LegacyKeepsInvariant(nodes, nodes);
  }

  /** `const name = defineProps<{...}>()`: the declarator reads `__props` and,
      the declaration being type-based, no props are returned. */
  lemma TypedPropsGiveNoProps(name: string, members: seq<TSMember>)
    ensures var call := CallExpression(Identifier("defineProps"), [], Some(TSTypeLiteral(members)), false);
      var d := VariableDeclaration("const", false, [Declarator(Identifier(name), Some(call))]);
      ApplyMacrosAsWritten([d]) == Ok(LegacyMacroResult([VariableDeclaration("const", false, [Declarator(Identifier(name), Some(Identifier("__props")))])], None))
  {
    var call := CallExpression(Identifier("defineProps"), [], Some(TSTypeLiteral(members)), false);
    var decl := Declarator(Identifier(name), Some(call));
    var d := VariableDeclaration("const", false, [decl]);
    var d' := VariableDeclaration("const", false, [Declarator(Identifier(name), Some(Identifier("__props")))]);
    var st := Initial.(hasDefinePropsCall := true, propsRuntimeDecl := None, propsTypeDecl := Some(TypeNode(TSTypeLiteral(members))));
    assert ProcessDefineEmits([d], Initial, Some(call)) == Ok((false, Initial));
    assert ProcessDefineProps([d], Initial, Some(call)) == Ok((true, st));
    assert ProcessInit([d], Initial, call) == Ok((Identifier("__props"), st));
    var decl' := Declarator(Identifier(name), Some(Identifier("__props")));
    assert ProcessDeclarator([d], Initial, decl) == Ok((decl', st));
    var ds := [decl];
    assert ds[..0] == [] && ds[0] == decl;
    var none: seq<Declarator> := [];
    assert none + [decl'] == [decl'];
    assert ProcessDeclarators([d], Initial, ds) == Ok(([Declarator(Identifier(name), Some(Identifier("__props")))], st));
    assert RewriteDeclaration([d], Initial, d) == Ok((d', st));
    assert StatementTail([d], st, d', d') == Ok((Some(d'), st));
    var ns := [d];
    assert ns[..0] == [];
    var empty: seq<Node> := [];
    assert empty + [d'] == [d'];
    assert PrefixAsWritten(ns, ns) == Ok(([d'], st));
  }

  lemma InitKeepsInvariant(nodes: seq<Node>, st: MacroState, init: Node)
    requires Invariant(st)
    ensures var r := ProcessInit(nodes, st, init); r.Ok? ==> Invariant(r.value.1)
  {
    DefineEmitsKeepsInvariant(nodes, st, Some(init));
    var e := ProcessDefineEmits(nodes, st, Some(init));
    if e.Ok? && !e.value.0 {
      DefinePropsKeepsInvariant(nodes, e.value.1, Some(init));
      var p := ProcessDefineProps(nodes, e.value.1, Some(init));
      if p.Ok? && !p.value.0 {
        WithDefaultsKeepsInvariant(nodes, p.value.1, Some(init));
      }
    }
  }

  lemma {:induction false} DeclaratorsKeepInvariant(nodes: seq<Node>, st: MacroState, ds: seq<Declarator>)
    requires Invariant(st)
    ensures var r := ProcessDeclarators(nodes, st, ds); r.Ok? ==> Invariant(r.value.1)
  {
    if |ds| != 0 {
      DeclaratorsKeepInvariant(nodes, st, ds[..|ds| - 1]);
      var prev := ProcessDeclarators(nodes, st, ds[..|ds| - 1]);
      if prev.Ok? && ds[|ds| - 1].init.Some? {
        InitKeepsInvariant(nodes, prev.value.1, ds[|ds| - 1].init.value);
      }
    }
  }

  lemma TailKeepsInvariant(nodes: seq<Node>, st: MacroState, kept: Node, target: Node)
    requires Invariant(st)
    ensures var r := StatementTail(nodes, st, kept, target); r.Ok? ==> Invariant(r.value.1)
  {
    DefineEmitsKeepsInvariant(nodes, st, Some(target));
    var e := ProcessDefineEmits(nodes, st, Some(target));
    if e.Ok? && !e.value.0 {
      DefinePropsKeepsInvariant(nodes, e.value.1, Some(target));
    }
  }

  lemma StatementKeepsInvariant(nodes: seq<Node>, st: MacroState, node: Node)
    requires Invariant(st)
    ensures var r := StatementAsWritten(nodes, st, node); r.Ok? ==> Invariant(r.value.1)
  {
    if node.VariableDeclaration? && !node.declare {
      DeclaratorsKeepInvariant(nodes, st, node.declarations);
    }
    var r := RewriteDeclaration(nodes, st, node);
    if r.Ok? {
      TailKeepsInvariant(nodes, r.value.1, r.value.0, r.value.0);
    }
  }

  /** The invariant of the handler state holds after every statement. */
  lemma {:induction false} LegacyKeepsInvariant(nodes: seq<Node>, stmts: seq<Node>)
    ensures var r := PrefixAsWritten(nodes, stmts); r.Ok? ==> Invariant(r.value.1)
  {
    if |stmts| != 0 {
      LegacyKeepsInvariant(nodes, stmts[..|stmts| - 1]);
      var prev := PrefixAsWritten(nodes, stmts[..|stmts| - 1]);
      if prev.Ok? {
        StatementKeepsInvariant(nodes, prev.value.1, stmts[|stmts| - 1]);
      }
    }
  }

  /** The loop over `node.declarations`. */
  method ProcessDeclarations(nodes: seq<Node>, st0: MacroState, ds: seq<Declarator>)
    returns (r: Result<(seq<Declarator>, MacroState)>)
    ensures r == ProcessDeclarators(nodes, st0, ds)
  {
    var st := st0;
    var out: seq<Declarator> := [];
    for i := 0 to |ds|
      invariant ProcessDeclarators(nodes, st0, ds[..i]) == Ok((out, st))
    {
      assert ds[..i + 1][..i] == ds[..i];
      var d := ProcessDeclarator(nodes, st, ds[i]);
      if d.Err? {
        FailurePersists(nodes, st0, ds, i + 1);
        return d.PropagateFailure();
      }
      out, st := out + [d.value.0], d.value.1;
    }
    assert ds[..|ds|] == ds;
    r := Ok((out, st));
  }

  lemma {:induction false} FailurePersists(nodes: seq<Node>, st0: MacroState, ds: seq<Declarator>, k: nat)
    requires 0 < k <= |ds|
    requires ProcessDeclarators(nodes, st0, ds[..k]).Err?
    ensures ProcessDeclarators(nodes, st0, ds) == ProcessDeclarators(nodes, st0, ds[..k])
    decreases |ds| - k
  {
    if k < |ds| {
      assert ds[..k + 1][..k] == ds[..k];
      FailurePersists(nodes, st0, ds, k + 1);
    } else {
      assert ds[..k] == ds;
    }
  }

  lemma {:induction false} StatementFailurePersists(nodes: seq<Node>, stmts: seq<Node>, k: nat)
    requires 0 < k <= |stmts|
    requires PrefixAsWritten(nodes, stmts[..k]).Err?
    ensures PrefixAsWritten(nodes, stmts) == PrefixAsWritten(nodes, stmts[..k])
    decreases |stmts| - k
  {
    if k < |stmts| {
      assert stmts[..k + 1][..k] == stmts[..k];
      StatementFailurePersists(nodes, stmts, k + 1);
    } else {
      assert stmts[..k] == stmts;
    }
  }

  /** The callback for one statement, rewriting the declarators in place; the
      macro test looks at the statement itself. */
  method ProcessOne(nodes: seq<Node>, st: MacroState, raw: Node) returns (step: Result<(Option<Node>, MacroState)>)
    ensures step == StatementAsWritten(nodes, st, raw)
  {
    var node := raw;
    var st1 := st;
    if node.VariableDeclaration? && !node.declare {
      var ds := ProcessDeclarations(nodes, st, node.declarations);
      if ds.Err? {
        return ds.PropagateFailure();
      }
      node := node.(declarations := ds.value.0);
      st1 := ds.value.1;
    }
    step := StatementTail(nodes, st1, node, node);
  }

  /** `applyMacros(nodes)` of `src/macros.ts`. */
  method ApplyMacros(nodes: seq<Node>) returns (r: Result<LegacyMacroResult>)
    ensures r == ApplyMacrosAsWritten(nodes)
  {
    var st := Initial;
    var kept: seq<Node> := [];
    for i := 0 to |nodes|
      invariant PrefixAsWritten(nodes, nodes[..i]) == Ok((kept, st))
    {
      assert nodes[..i + 1][..i] == nodes[..i];
      var step := ProcessOne(nodes, st, nodes[i]);
      if step.Err? {
        StatementFailurePersists(nodes, nodes, i + 1);
        return step.PropagateFailure();
      }
      var kept' := kept + if step.value.0.Some? then [step.value.0.value] else [];
      assert nodes[..i + 1][i] == nodes[i];
      assert PrefixAsWritten(nodes, nodes[..i + 1]) == Ok((kept', step.value.1));
      kept, st := kept', step.value.1;
    }
    assert nodes[..|nodes|] == nodes;
    r := Ok(LegacyMacroResult(kept, st.propsRuntimeDecl));
  }
}
