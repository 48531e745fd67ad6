/**
 * `getIdentifierUsages`: the names a statement or expression reads, collected
 * into an insertion-ordered set. The set is a sequence without duplicates
 * (`Js.AddAll` is `Set.prototype.add` applied in order); the accumulator the
 * source shares between recursive calls is threaded through the calls here.
 */
module Identifiers {
  import opened Js
  import opened BabelAst

  /** Every name `getIdentifierUsages(n)` adds, in the order it adds them
      (duplicates kept; the set keeps the first occurrence). */
  function Usages(n: Node): seq<string>
    decreases n, 1
  {
    match n
    case BlockStatement(body) => UsagesAll(body)
    case ExpressionStatement(e) => Usages(e)
    case Identifier(name) => [name]
    case MemberExpression(obj, prop, computed, _) =>
      Usages(obj) + (if computed then Usages(prop) else [])
    case CallExpression(callee, args, _, _) => Usages(callee) + UsagesAll(args)
    case BinaryExpression(_, l, r, _) => Usages(l) + Usages(r)
    case UnaryExpression(_, a) => Usages(a)
    case ForInOfStatement(_, _, right, _) => Usages(right)
    case ConditionalExpression(t, c, a) => Usages(t) + Usages(c) + Usages(a)
    case ObjectExpression(props) => MemberUsagesAll(props)
    case ArrayExpression(elements) => UsagesOfAll(elements)
    case SpreadElement(a) => Usages(a)
    case ReturnStatement(a) => UsagesOf(a)
    case NewExpression(callee, args) => Usages(callee) + UsagesAll(args)
    case FunctionNode(_, _, _, body, _) => Usages(body)
    case TemplateLiteral(_, exprs) => UsagesAll(exprs)
    case Literal(_) => []
    case AwaitExpression(_) => []
    case AssignmentExpression(_, _, _) => []
    case VariableDeclaration(_, _, _) => []
    case ImportDeclaration(_, _) => []
    case ExportNamedDeclaration(_) => []
    case ExportDefaultDeclaration(_) => []
    case TSInterfaceDeclaration(_, _) => []
    case TSTypeAliasDeclaration(_, _) => []
    case OtherNode(_) => []
  }

  /** A missing node (`null`, `undefined`, an array hole) adds nothing. */
  function UsagesOf(o: Option<Node>): seq<string>
    decreases o, 2
  {
    match o
    case None => []
    case Some(n) => Usages(n)
  }

  function UsagesAll(ns: seq<Node>): seq<string>
    decreases ns, 0
  {
    if |ns| == 0 then [] else UsagesAll(ns[..|ns| - 1]) + Usages(ns[|ns| - 1])
  }

  function UsagesOfAll(os: seq<Option<Node>>): seq<string>
    decreases os, 0
  {
    if |os| == 0 then [] else UsagesOfAll(os[..|os| - 1]) + UsagesOf(os[|os| - 1])
  }

  /** An object property adds its key when computed, then its value; a spread
      adds its argument; a method adds nothing. */
  function MemberUsages(m: ObjectMember): seq<string>
    decreases m, 2
  {
    match m
    case ObjectProperty(key, value, computed, _) => (if computed then Usages(key) else []) + Usages(value)
    case ObjectSpread(a) => Usages(a)
    case ObjectMethod(_, _, _) => []
  }

  function MemberUsagesAll(ms: seq<ObjectMember>): seq<string>
    decreases ms, 0
  {
    if |ms| == 0 then [] else MemberUsagesAll(ms[..|ms| - 1]) + MemberUsages(ms[|ms| - 1])
  }

  /**
   * `getIdentifierUsages(node, identifiers)`: adds the names `node` reads to
   * the set `identifiers` and returns the set. A missing node returns the set
   * unchanged.
   */
  method GetIdentifierUsages(node: Option<Node>, identifiers: seq<string>) returns (result: seq<string>)
    ensures result == AddAll(identifiers, UsagesOf(node))
    ensures StartsWithSeq(result, identifiers)
    ensures forall x :: x in result <==> x in identifiers || x in UsagesOf(node)
    decreases node, 2
  {
    AddAllSpec(identifiers, UsagesOf(node));
    if node.None? {
      result := identifiers;
    } else {
      result := Collect(node.value, identifiers);
    }
  }

  /** The recursion of `getIdentifierUsages` on a present node. */
  method Collect(n: Node, identifiers: seq<string>) returns (result: seq<string>)
    ensures result == AddAll(identifiers, Usages(n))
    decreases n, 1
  {
    match n
    case MemberExpression(_, _, _, _) | CallExpression(_, _, _, _) | NewExpression(_, _)
      | BinaryExpression(_, _, _, _) | ConditionalExpression(_, _, _) =>
      result := CollectOperation(n, identifiers);
    case BlockStatement(body) =>
      assert Usages(n) == UsagesAll(body);
      result := CollectAll(body, identifiers);
    case ExpressionStatement(e) =>
      assert Usages(n) == Usages(e);
      result := Collect(e, identifiers);
      assert result == AddAll(identifiers, Usages(e));
    case Identifier(name) =>
      result := Add(identifiers, name);
    case UnaryExpression(_, a) =>
      assert Usages(n) == Usages(a);
      result := Collect(a, identifiers);
      assert result == AddAll(identifiers, Usages(a));
    case ForInOfStatement(_, _, right, _) =>
      assert Usages(n) == Usages(right);
      result := Collect(right, identifiers);
      assert result == AddAll(identifiers, Usages(right));
    case ObjectExpression(props) =>
      assert Usages(n) == MemberUsagesAll(props);
      result := CollectProperties(props, identifiers);
    case ArrayExpression(elements) =>
      assert Usages(n) == UsagesOfAll(elements);
      result := CollectElements(elements, identifiers);
    case SpreadElement(a) =>
      assert Usages(n) == Usages(a);
      result := Collect(a, identifiers);
      assert result == AddAll(identifiers, Usages(a));
    case ReturnStatement(a) =>
      assert Usages(n) == UsagesOf(a);
      result := GetIdentifierUsages(a, identifiers);
    case FunctionNode(_, _, _, body, _) =>
      assert Usages(n) == Usages(body);
      result := Collect(body, identifiers);
      assert result == AddAll(identifiers, Usages(body));
    case TemplateLiteral(_, exprs) =>
      assert Usages(n) == UsagesAll(exprs);
      result := CollectAll(exprs, identifiers);
    case Literal(_) | AwaitExpression(_) | AssignmentExpression(_, _, _) | VariableDeclaration(_, _, _)
      | ImportDeclaration(_, _) | ExportNamedDeclaration(_) | ExportDefaultDeclaration(_)
      | TSInterfaceDeclaration(_, _) | TSTypeAliasDeclaration(_, _) | OtherNode(_) =>
      assert Usages(n) == [];
      result := identifiers;
  }

  /** Member access, calls, `new`, binary and conditional operators. */
  predicate IsOperation(n: Node)
  {
    n.MemberExpression? || n.CallExpression? || n.NewExpression? || n.BinaryExpression? || n.ConditionalExpression?
  }

  method CollectOperation(n: Node, identifiers: seq<string>) returns (result: seq<string>)
    requires IsOperation(n)
    ensures result == AddAll(identifiers, Usages(n))
    decreases n, 0
  {
    match n
    case MemberExpression(obj, prop, computed, _) =>
      result := Collect(obj, identifiers);
      if computed {
        result := Collect(prop, result);
        AddAllConcat(identifiers, Usages(obj), Usages(prop));
        assert Usages(n) == Usages(obj) + Usages(prop);
      } else {
        assert Usages(n) == Usages(obj) + [] == Usages(obj);
      }
    case CallExpression(callee, args, _, _) =>
      assert Usages(n) == Usages(callee) + UsagesAll(args);
      result := Collect(callee, identifiers);
      result := CollectAll(args, result);
      AddAllConcat(identifiers, Usages(callee), UsagesAll(args));
    case NewExpression(callee, args) =>
      assert Usages(n) == Usages(callee) + UsagesAll(args);
      result := Collect(callee, identifiers);
      result := CollectAll(args, result);
      AddAllConcat(identifiers, Usages(callee), UsagesAll(args));
    case BinaryExpression(_, l, r, _) =>
      assert Usages(n) == Usages(l) + Usages(r);
      result := Collect(l, identifiers);
      result := Collect(r, result);
      AddAllConcat(identifiers, Usages(l), Usages(r));
    case ConditionalExpression(t, c, a) =>
      assert Usages(n) == Usages(t) + Usages(c) + Usages(a);
      result := Collect(t, identifiers);
      result := Collect(c, result);
      AddAllConcat(identifiers, Usages(t), Usages(c));
      result := Collect(a, result);
      AddAllConcat(identifiers, Usages(t) + Usages(c), Usages(a));
  }

  /** The `ObjectExpression` branch: each property in turn. */
  method CollectProperties(props: seq<ObjectMember>, identifiers: seq<string>) returns (result: seq<string>)
    ensures result == AddAll(identifiers, MemberUsagesAll(props))
    decreases props, 0
  {
    result := identifiers;
    var i := 0;
    while i < |props|
      invariant 0 <= i <= |props|
      invariant result == AddAll(identifiers, MemberUsagesAll(props[..i]))
    {
      result := CollectProperty(props[i], result);
      assert props[..i + 1][..i] == props[..i];
      AddAllConcat(identifiers, MemberUsagesAll(props[..i]), MemberUsages(props[i]));
      i := i + 1;
    }
    assert props[..i] == props;
  }

  /** One member of an object literal. */
  method CollectProperty(m: ObjectMember, identifiers: seq<string>) returns (result: seq<string>)
    ensures result == AddAll(identifiers, MemberUsages(m))
    decreases m, 2
  {
    match m
    case ObjectProperty(key, value, computed, _) =>
      result := identifiers;
      if computed {
        result := Collect(key, result);
      }
      result := Collect(value, result);
      AddAllConcat(identifiers, if computed then Usages(key) else [], Usages(value));
    case ObjectSpread(a) =>
      result := Collect(a, identifiers);
    case ObjectMethod(_, _, _) =>
      result := identifiers;
  }

  /** The `ArrayExpression` branch: each element in turn, holes skipped. */
  method CollectElements(elements: seq<Option<Node>>, identifiers: seq<string>) returns (result: seq<string>)
    ensures result == AddAll(identifiers, UsagesOfAll(elements))
    decreases elements, 0
  {
    result := identifiers;
    var i := 0;
    while i < |elements|
      invariant 0 <= i <= |elements|
      invariant result == AddAll(identifiers, UsagesOfAll(elements[..i]))
    {
      result := GetIdentifierUsages(elements[i], result);
      assert elements[..i + 1][..i] == elements[..i];
      AddAllConcat(identifiers, UsagesOfAll(elements[..i]), UsagesOf(elements[i]));
      i := i + 1;
    }
    assert elements[..i] == elements;
  }

  /** `nodes.forEach(child => getIdentifierUsages(child, identifiers))`. */
  method CollectAll(nodes: seq<Node>, identifiers: seq<string>) returns (result: seq<string>)
    ensures result == AddAll(identifiers, UsagesAll(nodes))
    decreases nodes, 0
  {
    result := identifiers;
    var i := 0;
    while i < |nodes|
      invariant 0 <= i <= |nodes|
      invariant result == AddAll(identifiers, UsagesAll(nodes[..i]))
    {
      result := Collect(nodes[i], result);
      assert nodes[..i + 1][..i] == nodes[..i];
      AddAllConcat(identifiers, UsagesAll(nodes[..i]), Usages(nodes[i]));
      i := i + 1;
    }
    assert nodes[..i] == nodes;
  }

  // A reference definition: the name of every identifier anywhere in the
  // tree, in binding and in reading positions alike.

  function Names(n: Node): seq<string>
    decreases n, 1
  {
    match n
    case Identifier(name) => [name]
    case Literal(_) => []
    case MemberExpression(obj, prop, _, _) => Names(obj) + Names(prop)
    case CallExpression(callee, args, _, _) => Names(callee) + NamesAll(args)
    case NewExpression(callee, args) => Names(callee) + NamesAll(args)
    case BinaryExpression(_, l, r, _) => Names(l) + Names(r)
    case UnaryExpression(_, a) => Names(a)
    case ConditionalExpression(t, c, a) => Names(t) + Names(c) + Names(a)
    case ObjectExpression(props) => MemberNamesAll(props)
    case ArrayExpression(elements) => NamesOfAll(elements)
    case SpreadElement(a) => Names(a)
    case TemplateLiteral(_, exprs) => NamesAll(exprs)
    case FunctionNode(_, id, params, body, _) =>
      (if id.Some? then [id.value] else []) + NamesAll(params) + Names(body)
    case AwaitExpression(a) => Names(a)
    case AssignmentExpression(_, l, r) => Names(l) + Names(r)
    case ExpressionStatement(e) => Names(e)
    case BlockStatement(body) => NamesAll(body)
    case ReturnStatement(a) => NamesOf(a)
    case ForInOfStatement(_, left, right, body) => Names(left) + Names(right) + Names(body)
    case VariableDeclaration(_, _, decls) => DeclaratorNamesAll(decls)
    case ImportDeclaration(specifiers, _) => specifiers
    case ExportNamedDeclaration(d) => NamesOf(d)
    case ExportDefaultDeclaration(d) => Names(d)
    case TSInterfaceDeclaration(name, _) => [name]
    case TSTypeAliasDeclaration(name, _) => [name]
    case OtherNode(_) => []
  }

  function NamesOf(o: Option<Node>): seq<string>
    decreases o, 2
  {
    match o
    case None => []
    case Some(n) => Names(n)
  }

  function NamesAll(ns: seq<Node>): seq<string>
    decreases ns, 0
  {
    if |ns| == 0 then [] else NamesAll(ns[..|ns| - 1]) + Names(ns[|ns| - 1])
  }

  function NamesOfAll(os: seq<Option<Node>>): seq<string>
    decreases os, 0
  {
    if |os| == 0 then [] else NamesOfAll(os[..|os| - 1]) + NamesOf(os[|os| - 1])
  }

  function MemberNames(m: ObjectMember): seq<string>
    decreases m, 2
  {
    match m
    case ObjectProperty(key, value, _, _) => Names(key) + Names(value)
    case ObjectSpread(a) => Names(a)
    case ObjectMethod(key, _, body) => Names(key) + Names(body)
  }

  function MemberNamesAll(ms: seq<ObjectMember>): seq<string>
    decreases ms, 0
  {
    if |ms| == 0 then [] else MemberNamesAll(ms[..|ms| - 1]) + MemberNames(ms[|ms| - 1])
  }

  function DeclaratorNames(d: Declarator): seq<string>
    decreases d, 2
  {
    Names(d.id) + NamesOf(d.init)
  }

  function DeclaratorNamesAll(ds: seq<Declarator>): seq<string>
    decreases ds, 0
  {
    if |ds| == 0 then [] else DeclaratorNamesAll(ds[..|ds| - 1]) + DeclaratorNames(ds[|ds| - 1])
  }

  /** Only names of identifiers that occur in the node are ever added. */
  lemma {:induction false} UsagesAreNames(n: Node)
    ensures forall x :: x in Usages(n) ==> x in Names(n)
    decreases n, 1
  {
    match n
    case MemberExpression(_, _, _, _) | CallExpression(_, _, _, _) | NewExpression(_, _)
      | BinaryExpression(_, _, _, _) | ConditionalExpression(_, _, _) =>
      OperationUsagesAreNames(n);
    case BlockStatement(body) => UsagesAllAreNames(body);
    case ExpressionStatement(e) => UsagesAreNames(e);
    case Identifier(_) =>
    case UnaryExpression(_, a) => UsagesAreNames(a);
    case ForInOfStatement(_, _, right, _) => UsagesAreNames(right);
    case ObjectExpression(props) => MemberUsagesAllAreNames(props);
    case ArrayExpression(elements) => UsagesOfAllAreNames(elements);
    case SpreadElement(a) => UsagesAreNames(a);
    case ReturnStatement(a) => UsagesOfAreNames(a);
    case FunctionNode(_, _, _, body, _) =>
      UsagesAreNames(body);
      assert Names(n) == (if n.fnId.Some? then [n.fnId.value] else []) + NamesAll(n.params) + Names(body);
    case TemplateLiteral(_, exprs) => UsagesAllAreNames(exprs);
    case Literal(_) | AwaitExpression(_) | AssignmentExpression(_, _, _) | VariableDeclaration(_, _, _)
      | ImportDeclaration(_, _) | ExportNamedDeclaration(_) | ExportDefaultDeclaration(_)
      | TSInterfaceDeclaration(_, _) | TSTypeAliasDeclaration(_, _) | OtherNode(_) =>
      assert Usages(n) == [];
  }

  lemma {:induction false} OperationUsagesAreNames(n: Node)
    requires IsOperation(n)
    ensures forall x :: x in Usages(n) ==> x in Names(n)
    decreases n, 0
  {
    match n
    case MemberExpression(obj, prop, _, _) => UsagesAreNames(obj); UsagesAreNames(prop);
    case CallExpression(callee, args, _, _) => UsagesAreNames(callee); UsagesAllAreNames(args);
    case NewExpression(callee, args) => UsagesAreNames(callee); UsagesAllAreNames(args);
    case BinaryExpression(_, l, r, _) => UsagesAreNames(l); UsagesAreNames(r);
    case ConditionalExpression(t, c, a) => UsagesAreNames(t); UsagesAreNames(c); UsagesAreNames(a);
  }

  lemma {:induction false} UsagesOfAreNames(o: Option<Node>)
    ensures forall x :: x in UsagesOf(o) ==> x in NamesOf(o)
    decreases o, 2
  {
    if o.Some? { UsagesAreNames(o.value); }
  }

  lemma {:induction false} MemberUsagesAreNames(m: ObjectMember)
    ensures forall x :: x in MemberUsages(m) ==> x in MemberNames(m)
    decreases m, 2
  {
    match m
    case ObjectProperty(key, value, _, _) => UsagesAreNames(key); UsagesAreNames(value);
    case ObjectSpread(a) => UsagesAreNames(a);
    case ObjectMethod(_, _, _) =>
  }

  lemma {:induction false} UsagesAllAreNames(ns: seq<Node>)
    ensures forall x :: x in UsagesAll(ns) ==> x in NamesAll(ns)
    decreases ns, 0
  {
    if |ns| != 0 {
      UsagesAllAreNames(ns[..|ns| - 1]);
      UsagesAreNames(ns[|ns| - 1]);
    }
  }

  lemma {:induction false} UsagesOfAllAreNames(os: seq<Option<Node>>)
    ensures forall x :: x in UsagesOfAll(os) ==> x in NamesOfAll(os)
    decreases os, 0
  {
    if |os| != 0 {
      UsagesOfAllAreNames(os[..|os| - 1]);
      UsagesOfAreNames(os[|os| - 1]);
    }
  }

  lemma {:induction false} MemberUsagesAllAreNames(ms: seq<ObjectMember>)
    ensures forall x :: x in MemberUsagesAll(ms) ==> x in MemberNamesAll(ms)
    decreases ms, 0
  {
    if |ms| != 0 {
      MemberUsagesAllAreNames(ms[..|ms| - 1]);
      MemberUsagesAreNames(ms[|ms| - 1]);
    }
  }

  // Cases from the repository's identifier tests, on the trees Babel gives
  // for them, for any choice of the names.

  /** `foo.bar` reads `foo` only. */
  lemma MemberPropertyNotRead(foo: string, bar: string)
    ensures Usages(ExpressionStatement(Member(foo, bar))) == [foo]
  {
    assert Usages(Identifier(foo)) == [foo];
    assert Usages(Member(foo, bar)) == [foo] + [];
  }

  /** `new RC.Foo()` reads `RC` only. */
  lemma NewOfMemberReadsObject(rc: string, foo: string)
    ensures Usages(ExpressionStatement(NewExpression(Member(rc, foo), []))) == [rc]
  {
    assert Usages(Identifier(rc)) == [rc];
    assert Usages(Member(rc, foo)) == [rc] + [];
    assert Usages(NewExpression(Member(rc, foo), [])) == [rc] + UsagesAll([]);
  }

  /** `({ a, b, ...args, [c]: 1, d: e, f: { g } })` reads a, b, args, c, e, g. */
  lemma ObjectLiteralReads(a: string, b: string, args: string, c: string, d: string, e: string, f: string, g: string)
    ensures Usages(ExpressionStatement(ObjectExpression([
      Shorthand(a), Shorthand(b), ObjectSpread(Identifier(args)),
      ObjectProperty(Identifier(c), Literal(NumericLiteral(1)), true, false),
      ObjectProperty(Identifier(d), Identifier(e), false, false),
      ObjectProperty(Identifier(f), ObjectExpression([Shorthand(g)]), false, false)])))
      == [a, b, args, c, e, g]
  {
    var inner := ObjectExpression([Shorthand(g)]);
    assert Usages(Identifier(g)) == [g];
    SnocMembers([], Shorthand(g), [], [g]);
    assert [] + [Shorthand(g)] == [Shorthand(g)];
    assert Usages(inner) == [g];
    assert Usages(Identifier(a)) == [a];
    assert Usages(Identifier(b)) == [b];
    assert Usages(Identifier(args)) == [args];
    assert Usages(Identifier(c)) == [c];
    assert Usages(Literal(NumericLiteral(1))) == [];
    assert Usages(Identifier(e)) == [e];
    MembersInOrder(Shorthand(a), Shorthand(b), ObjectSpread(Identifier(args)),
      ObjectProperty(Identifier(c), Literal(NumericLiteral(1)), true, false),
      ObjectProperty(Identifier(d), Identifier(e), false, false),
      ObjectProperty(Identifier(f), inner, false, false),
      [a], [b], [args], [c], [e], [g]);
  }

  /** The members of an object literal add their names one member after the other. */
  lemma MembersInOrder(m0: ObjectMember, m1: ObjectMember, m2: ObjectMember, m3: ObjectMember,
                       m4: ObjectMember, m5: ObjectMember,
                       u0: seq<string>, u1: seq<string>, u2: seq<string>, u3: seq<string>,
                       u4: seq<string>, u5: seq<string>)
    requires MemberUsages(m0) == u0 && MemberUsages(m1) == u1 && MemberUsages(m2) == u2
    requires MemberUsages(m3) == u3 && MemberUsages(m4) == u4 && MemberUsages(m5) == u5
    ensures MemberUsagesAll([m0, m1, m2, m3, m4, m5]) == u0 + u1 + u2 + u3 + u4 + u5
  {
    var p1 := [m0];
    var p2 := p1 + [m1];
    var p3 := p2 + [m2];
    var p4 := p3 + [m3];
    var p5 := p4 + [m4];
    var p6 := p5 + [m5];
    assert p1[..0] == [];
    assert MemberUsagesAll(p1) == u0;
    assert p2[..1] == p1;
    assert MemberUsagesAll(p2) == u0 + u1;
    assert p3[..2] == p2;
    assert MemberUsagesAll(p3) == u0 + u1 + u2;
    assert p4[..3] == p3;
    assert MemberUsagesAll(p4) == u0 + u1 + u2 + u3;
    assert p5[..4] == p4;
    assert MemberUsagesAll(p5) == u0 + u1 + u2 + u3 + u4;
    assert p6[..5] == p5;
    assert p6 == [m0, m1, m2, m3, m4, m5];
  }

  /** One more member at the end of an object literal. */
  lemma SnocMembers(ms: seq<ObjectMember>, m: ObjectMember, before: seq<string>, added: seq<string>)
    requires MemberUsagesAll(ms) == before && MemberUsages(m) == added
    ensures MemberUsagesAll(ms + [m]) == before + added
  {
    assert (ms + [m])[..|ms|] == ms;
  }

  /** `for (let [x, idx] of foo) {}` reads `foo` only: the loop variables are
      neither added nor subtracted. */
  lemma ForOfReadsSource(foo: string)
    ensures Usages(ForInOfStatement(true,
      VariableDeclaration("let", false, [Declarator(OtherNode("ArrayPattern"), None)]),
      Identifier(foo), BlockStatement([]))) == [foo]
  {
    assert Usages(Identifier(foo)) == [foo];
  }

  /** `function foobar(x) { return foo() + bar }` reads foo and bar; neither the
      function's name nor its parameter is added. */
  lemma FunctionReadsBodyOnly(foobar: string, x: string, foo: string, bar: string)
    ensures Usages(FunctionNode(FunctionDeclaration, Some(foobar), [Identifier(x)],
      BlockStatement([ReturnStatement(Some(BinaryExpression("+",
        CallExpression(Identifier(foo), [], None, false), Identifier(bar), false)))]),
      false)) == [foo, bar]
  {
    var call := CallExpression(Identifier(foo), [], None, false);
    assert Usages(Identifier(foo)) == [foo];
    assert Usages(call) == [foo] + UsagesAll([]);
    var sum := BinaryExpression("+", call, Identifier(bar), false);
    assert Usages(sum) == [foo] + Usages(Identifier(bar));
    var ret := ReturnStatement(Some(sum));
    assert Usages(ret) == UsagesOf(Some(sum)) == [foo, bar];
    assert [ret][..0] == [];
    assert UsagesAll([ret]) == UsagesAll([]) + Usages(ret);
  }
}
