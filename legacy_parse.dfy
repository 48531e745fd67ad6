/**
 * The older SFC scanner and walkers of `src/parse.ts`: `parseVueSFC`, which
 * also collects template components and expressions while it scans,
 * `getIdentifiersDeclaration` and `getIdentifiersUsage`.
 */
module LegacyParse {
  import opened Js
  import opened Utils
  import opened BabelAst
  import opened Identifiers
  import opened Parsers
  import opened Sfc
  import ParseSfc

  /* ---------- getIdentifiersUsage ---------- */

  /** The names `getIdentifiersUsage(n)` adds, in order: identifiers, member
      objects, callees and arguments, both sides of binary and logical
      expressions, the source of `for-in`/`for-of`, the three parts of a
      conditional and the values of object properties. Nothing else is walked. */
  function LegacyUsages(n: Node): seq<string>
    decreases n, 1
  {
    match n
    case ExpressionStatement(e) => LegacyUsages(e)
    case Identifier(name) => [name]
    case MemberExpression(obj, _, _, optional) => if optional then [] else LegacyUsages(obj)
    case CallExpression(callee, args, _, optional) => if optional then [] else LegacyUsages(callee) + LegacyUsagesAll(args)
    case BinaryExpression(_, l, r, _) => LegacyUsages(l) + LegacyUsages(r)
    case ForInOfStatement(_, _, right, _) => LegacyUsages(right)
    case ConditionalExpression(t, c, a) => LegacyUsages(t) + LegacyUsages(c) + LegacyUsages(a)
    case ObjectExpression(props) => PropertyValueUsagesAll(props)
    case Literal(_) | NewExpression(_, _) | UnaryExpression(_, _) | ArrayExpression(_) | SpreadElement(_)
      | TemplateLiteral(_, _) | FunctionNode(_, _, _, _, _) | AwaitExpression(_) | AssignmentExpression(_, _, _)
      | BlockStatement(_) | ReturnStatement(_) | VariableDeclaration(_, _, _) | ImportDeclaration(_, _)
      | ExportNamedDeclaration(_) | ExportDefaultDeclaration(_) | TSInterfaceDeclaration(_, _)
      | TSTypeAliasDeclaration(_, _) | OtherNode(_) => []
  }

  function LegacyUsagesAll(ns: seq<Node>): seq<string>
    decreases ns, 0
  {
    if |ns| == 0 then [] else LegacyUsagesAll(ns[..|ns| - 1]) + LegacyUsages(ns[|ns| - 1])
  }

  /** `prop.value`: only an `ObjectProperty` has one. */
  function PropertyValueUsages(m: ObjectMember): seq<string>
    decreases m, 2
  {
    match m
    case ObjectProperty(_, value, _, _) => LegacyUsages(value)
    case ObjectSpread(_) | ObjectMethod(_, _, _) => []
  }

  function PropertyValueUsagesAll(ms: seq<ObjectMember>): seq<string>
    decreases ms, 0
  {
    if |ms| == 0 then [] else PropertyValueUsagesAll(ms[..|ms| - 1]) + PropertyValueUsages(ms[|ms| - 1])
  }

  /** `getIdentifiersUsage(node, identifiers)`: adds the names `node` reads to the
      set and returns it; an absent node adds nothing. */
  method GetIdentifiersUsage(node: Option<Node>, identifiers: seq<string>) returns (result: seq<string>)
    ensures result == AddAll(identifiers, if node.None? then [] else LegacyUsages(node.value))
  {
    if node.None? {
      return identifiers;
    }
    result := UsagesOfNode(node.value, identifiers);
  }

  /** The walk of `getIdentifiersUsage` on a present node. */
  method UsagesOfNode(n: Node, identifiers: seq<string>) returns (result: seq<string>)
    ensures result == AddAll(identifiers, LegacyUsages(n))
    decreases n, 1
  {
    match n
    case ExpressionStatement(e) =>
      result := UsagesOfNode(e, identifiers);
    case Identifier(name) =>
      result := Add(identifiers, name);
    case MemberExpression(obj, _, _, optional) =>
      if optional {
        result := identifiers;
      } else {
        result := UsagesOfNode(obj, identifiers);
      }
    case CallExpression(callee, args, _, optional) =>
      if optional {
        result := identifiers;
      } else {
        result := UsagesOfNode(callee, identifiers);
        result := UsagesOfEach(args, result);
        AddAllConcat(identifiers, LegacyUsages(callee), LegacyUsagesAll(args));
      }
    case BinaryExpression(_, l, r, _) =>
      result := UsagesOfNode(l, identifiers);
      result := UsagesOfNode(r, result);
      AddAllConcat(identifiers, LegacyUsages(l), LegacyUsages(r));
    case ForInOfStatement(_, _, right, _) =>
      result := UsagesOfNode(right, identifiers);
    case ConditionalExpression(t, c, a) =>
      result := UsagesOfNode(t, identifiers);
      result := UsagesOfNode(c, result);
      result := UsagesOfNode(a, result);
      AddAllConcat(identifiers, LegacyUsages(t), LegacyUsages(c));
      AddAllConcat(identifiers, LegacyUsages(t) + LegacyUsages(c), LegacyUsages(a));
    case ObjectExpression(props) =>
      result := UsagesOfPropertyValues(props, identifiers);
    case Literal(_) | NewExpression(_, _) | UnaryExpression(_, _) | ArrayExpression(_) | SpreadElement(_)
      | TemplateLiteral(_, _) | FunctionNode(_, _, _, _, _) | AwaitExpression(_) | AssignmentExpression(_, _, _)
      | BlockStatement(_) | ReturnStatement(_) | VariableDeclaration(_, _, _) | ImportDeclaration(_, _)
      | ExportNamedDeclaration(_) | ExportDefaultDeclaration(_) | TSInterfaceDeclaration(_, _)
      | TSTypeAliasDeclaration(_, _) | OtherNode(_) =>
      result := identifiers;
  }

  /** `nodes.forEach(node => getIdentifiersUsage(node, identifiers))`, as done for
      the arguments of a call and for the statements of a parsed expression. */
  method UsagesOfEach(args: seq<Node>, identifiers: seq<string>) returns (result: seq<string>)
    ensures result == AddAll(identifiers, LegacyUsagesAll(args))
    decreases args, 0
  {
    result := identifiers;
    for i := 0 to |args|
      invariant result == AddAll(identifiers, LegacyUsagesAll(args[..i]))
    {
      assert args[..i + 1][..i] == args[..i];
      AddAllConcat(identifiers, LegacyUsagesAll(args[..i]), LegacyUsages(args[i]));
      result := UsagesOfNode(args[i], result);
    }
    assert args[..|args|] == args;
  }

  /** `node.properties.forEach(prop => getIdentifiersUsage(prop.value, identifiers))` */
  method UsagesOfPropertyValues(props: seq<ObjectMember>, identifiers: seq<string>) returns (result: seq<string>)
    ensures result == AddAll(identifiers, PropertyValueUsagesAll(props))
    decreases props, 0
  {
    result := identifiers;
    for i := 0 to |props|
      invariant result == AddAll(identifiers, PropertyValueUsagesAll(props[..i]))
    {
      assert props[..i + 1][..i] == props[..i];
      AddAllConcat(identifiers, PropertyValueUsagesAll(props[..i]), PropertyValueUsages(props[i]));
      result := UsagesOfPropertyValue(props[i], result);
    }
    assert props[..|props|] == props;
  }

  /** `getIdentifiersUsage(prop.value, identifiers)`: a spread or a method has no
      `value`, so it adds nothing. */
  method UsagesOfPropertyValue(m: ObjectMember, identifiers: seq<string>) returns (result: seq<string>)
    ensures result == AddAll(identifiers, PropertyValueUsages(m))
    decreases m, 2
  {
    match m
    case ObjectProperty(_, value, _, _) =>
      result := UsagesOfNode(value, identifiers);
    case ObjectSpread(_) | ObjectMethod(_, _, _) =>
      result := identifiers;
  }

  /** Everything the older walker reports, the current one reports too. */
  lemma {:induction false} LegacyUsagesAreUsages(n: Node)
    ensures forall x :: x in LegacyUsages(n) ==> x in Usages(n)
    decreases n, 1
  {
    match n
    case ExpressionStatement(e) => LegacyUsagesAreUsages(e);
    case MemberExpression(obj, _, _, _) => LegacyUsagesAreUsages(obj);
    case CallExpression(callee, args, _, _) =>
      LegacyUsagesAreUsages(callee);
      LegacyUsagesAllAreUsages(args);
    case BinaryExpression(_, l, r, _) =>
      LegacyUsagesAreUsages(l);
      LegacyUsagesAreUsages(r);
    case ForInOfStatement(_, _, right, _) => LegacyUsagesAreUsages(right);
    case ConditionalExpression(t, c, a) =>
      LegacyUsagesAreUsages(t);
      LegacyUsagesAreUsages(c);
      LegacyUsagesAreUsages(a);
    case ObjectExpression(props) => PropertyValueUsagesAllAreUsages(props);
    case Identifier(_) | Literal(_) | NewExpression(_, _) | UnaryExpression(_, _) | ArrayExpression(_) | SpreadElement(_)
      | TemplateLiteral(_, _) | FunctionNode(_, _, _, _, _) | AwaitExpression(_) | AssignmentExpression(_, _, _)
      | BlockStatement(_) | ReturnStatement(_) | VariableDeclaration(_, _, _) | ImportDeclaration(_, _)
      | ExportNamedDeclaration(_) | ExportDefaultDeclaration(_) | TSInterfaceDeclaration(_, _)
      | TSTypeAliasDeclaration(_, _) | OtherNode(_) =>
  }

  lemma {:induction false} LegacyUsagesAllAreUsages(ns: seq<Node>)
    ensures forall x :: x in LegacyUsagesAll(ns) ==> x in UsagesAll(ns)
    decreases ns, 0
  {
    if |ns| != 0 {
      LegacyUsagesAllAreUsages(ns[..|ns| - 1]);
      LegacyUsagesAreUsages(ns[|ns| - 1]);
    }
  }

  lemma {:induction false} PropertyValueUsagesAreUsages(m: ObjectMember)
    ensures forall x :: x in PropertyValueUsages(m) ==> x in MemberUsages(m)
    decreases m, 2
  {
    match m
    case ObjectProperty(_, value, _, _) => LegacyUsagesAreUsages(value);
    case ObjectSpread(_) | ObjectMethod(_, _, _) =>
  }

  lemma {:induction false} PropertyValueUsagesAllAreUsages(ms: seq<ObjectMember>)
    ensures forall x :: x in PropertyValueUsagesAll(ms) ==> x in MemberUsagesAll(ms)
    decreases ms, 0
  {
    if |ms| != 0 {
      PropertyValueUsagesAllAreUsages(ms[..|ms| - 1]);
      PropertyValueUsagesAreUsages(ms[|ms| - 1]);
    }
  }

  /** The converse fails: `!a` reads `a` for the current walker only. */
  lemma UnaryNotWalked(op: string, a: string)
    ensures LegacyUsages(UnaryExpression(op, Identifier(a))) == []
    ensures Usages(UnaryExpression(op, Identifier(a))) == [a]
  {
  }

  /* ---------- getIdentifiersDeclaration ---------- */

  /** `declarator.id.name`: `undefined` for a destructuring pattern. */
  function DeclaratorName(d: Declarator): Nullable<string>
  {
    if d.id.Identifier? then Value(d.id.name) else Undefined
  }

  function DeclaratorNamesOf(ds: seq<Declarator>): seq<Nullable<string>>
  {
    if |ds| == 0 then [] else DeclaratorNamesOf(ds[..|ds| - 1]) + [DeclaratorName(ds[|ds| - 1])]
  }

  /** The names one statement declares, as `getIdentifiersDeclaration` sees them. */
  function Declared(n: Node): seq<Nullable<string>>
  {
    match n
    case ImportDeclaration(specifiers, _) => Present(specifiers)
    case VariableDeclaration(_, _, declarations) => DeclaratorNamesOf(declarations)
    case FunctionNode(kind, id, _, _, _) => if kind == FunctionDeclaration && id.Some? then [Value(id.value)] else []
    case _ => []
  }

  function DeclaredAll(nodes: seq<Node>): seq<Nullable<string>>
  {
    if |nodes| == 0 then [] else DeclaredAll(nodes[..|nodes| - 1]) + Declared(nodes[|nodes| - 1])
  }

  /** `getIdentifiersDeclaration(nodes, identifiers)` */
  method GetIdentifiersDeclaration(nodes: seq<Node>, identifiers: seq<Nullable<string>>)
    returns (result: seq<Nullable<string>>)
    ensures result == AddAll(identifiers, DeclaredAll(nodes))
  {
    result := identifiers;
    for i := 0 to |nodes|
      invariant result == AddAll(identifiers, DeclaredAll(nodes[..i]))
    {
      assert nodes[..i + 1][..i] == nodes[..i];
      AddAllConcat(identifiers, DeclaredAll(nodes[..i]), Declared(nodes[i]));
      result := AddDeclared(nodes[i], result);
    }
    assert nodes[..|nodes|] == nodes;
  }

  /** The body of the loop in `getIdentifiersDeclaration`, for one statement. */
  method AddDeclared(node: Node, identifiers: seq<Nullable<string>>) returns (result: seq<Nullable<string>>)
    ensures result == AddAll(identifiers, Declared(node))
  {
    match node {
      case ImportDeclaration(specifiers, _) =>
        result := AddSpecifiers(specifiers, identifiers);
      case VariableDeclaration(_, _, declarations) =>
        result := AddDeclarators(declarations, identifiers);
      case FunctionNode(kind, id, _, _, _) =>
        result := identifiers;
        if kind == FunctionDeclaration && id.Some? {
          result := Add(result, Value(id.value));
        }
      case _ =>
        result := identifiers;
    }
  }

  /** `for (const specifier of node.specifiers) identifiers.add(specifier.local.name)` */
  method AddSpecifiers(specifiers: seq<string>, identifiers: seq<Nullable<string>>)
    returns (result: seq<Nullable<string>>)
    ensures result == AddAll(identifiers, Present(specifiers))
  {
    result := identifiers;
    for k := 0 to |specifiers|
      invariant result == AddAll(identifiers, Present(specifiers[..k]))
    {
      assert Present(specifiers[..k + 1]) == Present(specifiers[..k]) + [Value(specifiers[k])];
      AddAllConcat(identifiers, Present(specifiers[..k]), [Value(specifiers[k])]);
      result := Add(result, Value(specifiers[k]));
    }
    assert specifiers[..|specifiers|] == specifiers;
  }

  /** `for (const declarator of node.declarations) identifiers.add(declarator.id.name)` */
  method AddDeclarators(declarations: seq<Declarator>, identifiers: seq<Nullable<string>>)
    returns (result: seq<Nullable<string>>)
    ensures result == AddAll(identifiers, DeclaratorNamesOf(declarations))
  {
    result := identifiers;
    for k := 0 to |declarations|
      invariant result == AddAll(identifiers, DeclaratorNamesOf(declarations[..k]))
    {
      assert declarations[..k + 1][..k] == declarations[..k];
      AddAllConcat(identifiers, DeclaratorNamesOf(declarations[..k]), [DeclaratorName(declarations[k])]);
      result := Add(result, DeclaratorName(declarations[k]));
    }
    assert declarations[..|declarations|] == declarations;
  }

  /** `node` declares `x` for `getIdentifiersDeclaration`: an import binding it
      locally, a variable declarator whose target is the identifier `x`, or a
      function declaration named `x`. */
  predicate DeclaresName(n: Node, x: string)
  {
    || (n.ImportDeclaration? && x in n.specifiers)
    || (n.VariableDeclaration? && exists d :: d in n.declarations && d.id == Identifier(x))
    || (n.FunctionNode? && n.fnKind == FunctionDeclaration && n.fnId == Some(x))
  }

  /** Exactly the names some statement declares are reported, and nothing else
      (the body of a function, a call, ... adds nothing). */
  lemma {:induction false} DeclaredNamesExactly(nodes: seq<Node>, x: string)
    ensures Value(x) in DeclaredAll(nodes) <==> exists i :: 0 <= i < |nodes| && DeclaresName(nodes[i], x)
  {
    if |nodes| != 0 {
      var p := nodes[..|nodes| - 1];
      DeclaredNamesExactly(p, x);
      DeclaredOneExactly(nodes[|nodes| - 1], x);
      assert forall i :: 0 <= i < |p| ==> nodes[i] == p[i];
    }
  }

  lemma DeclaredOneExactly(n: Node, x: string)
    ensures Value(x) in Declared(n) <==> DeclaresName(n, x)
  {
    match n
    case ImportDeclaration(specifiers, _) =>
      assert Value(x) in Present(specifiers) <==> x in specifiers by {
        if Value(x) in Present(specifiers) {
          var i :| 0 <= i < |specifiers| && Present(specifiers)[i] == Value(x);
        }
        if x in specifiers {
          var i :| 0 <= i < |specifiers| && specifiers[i] == x;
          assert Present(specifiers)[i] == Value(x);
        }
      }
    case VariableDeclaration(_, _, declarations) => DeclaratorNamesExactly(declarations, x);
    case _ =>
  }

  lemma {:induction false} DeclaratorNamesExactly(ds: seq<Declarator>, x: string)
    ensures Value(x) in DeclaratorNamesOf(ds) <==> exists d :: d in ds && d.id == Identifier(x)
  {
    if |ds| != 0 {
      var p := ds[..|ds| - 1];
      DeclaratorNamesExactly(p, x);
      assert ds == p + [ds[|ds| - 1]];
    }
  }

  /* ---------- v-for aliases ---------- */

  /** `\sep(?:in|of)\sep` matches at `i`, after a run `.*?` of the first line. */
  predicate AliasWith(s: string, i: nat, sep: char -> bool)
  {
    && i + 4 <= |s|
    && NoLineTerminator(s[..i])
    && sep(s[i])
    && (s[i + 1..i + 3] == "in" || s[i + 1..i + 3] == "of")
    && sep(s[i + 3])
  }

  /** The first position from `i` where the alias pattern matches. */
  function FirstAliasFrom(s: string, i: nat, sep: char -> bool): (r: Option<nat>)
    ensures r.Some? ==> i <= r.value && AliasWith(s, r.value, sep)
    ensures r.Some? ==> forall j :: i <= j < r.value ==> !AliasWith(s, j, sep)
    ensures r.None? ==> forall j :: i <= j ==> !AliasWith(s, j, sep)
    decreases |s| - i
  {
    if i + 4 > |s| then None
    else if AliasWith(s, i, sep) then Some(i)
    else FirstAliasFrom(s, i + 1, sep)
  }

  /** `value.replace(/^.*?\w(?:in|of)\w/, '')` as written in `parseVueSFC`: the
      alias pattern demands word characters, not white space, around `in`/`of`. */
  function StripAliasAsWritten(s: string): (r: string)
    ensures (forall j :: !AliasWith(s, j, IsWordChar)) ==> r == s
    ensures forall j :: AliasWith(s, j, IsWordChar) && (forall k :: k < j ==> !AliasWith(s, k, IsWordChar)) ==> r == s[j + 4..]
  {
    match FirstAliasFrom(s, 0, IsWordChar)
    case None => s
    case Some(i) => s[i + 4..]
  }

  /** `point in points` loses `point`, and what is left, `( in points)`, is no
      expression at all. */
  lemma AliasRegexCutsIdentifier()
    ensures StripAliasAsWritten("point in points") == " in points"
  {
    var s := "point in points";
    assert s[2..4] == "in" && s[..1] == "p";
    assert AliasWith(s, 1, IsWordChar);
    assert !AliasWith(s, 0, IsWordChar) by {
      assert s[1..3][0] == 'o' && s[1..3][1] == 'i';
    }
  }

  /** The stripping the comment beside it describes: the declaration before the
      first `in` or `of` between white space is dropped. */
  function StripAlias(s: string): (r: string)
    ensures (forall j :: !AliasWith(s, j, IsSpace)) ==> r == s
    ensures forall j :: AliasWith(s, j, IsSpace) && (forall k :: k < j ==> !AliasWith(s, k, IsSpace)) ==> r == s[j + 4..]
  {
    match FirstAliasFrom(s, 0, IsSpace)
    case None => s
    case Some(i) => s[i + 4..]
  }

  /** An alias without white space, then ` in ` or ` of `, leaves the source. */
  lemma StripAliasLeavesSource(alias: string, keyword: string, source: string)
    requires keyword == "in" || keyword == "of"
    requires forall k :: 0 <= k < |alias| ==> !IsSpace(alias[k]) && !IsLineTerminator(alias[k])
    ensures StripAlias(alias + " " + keyword + " " + source) == source
  {
    var s := alias + " " + keyword + " " + source;
    var i := |alias|;
    assert s[i + 1..i + 3] == keyword;
    assert s[..i] == alias;
    assert AliasWith(s, i, IsSpace);
    forall k: nat | k < i
      ensures !AliasWith(s, k, IsSpace)
    {
      assert s[k] == alias[k];
    }
    assert s[i + 4..] == source;
  }

  /* ---------- mustaches ---------- */

  /** `text.matchAll(/\{\{(.*?)\}\}/g)`: the captured expressions, left to right;
      a match never spans a line break. */
  function MustacheMatches(s: string, i: nat): (r: seq<string>)
    requires i <= |s|
    ensures forall k :: 0 <= k < |r| ==> NoLineTerminator(r[k])
    decreases |s| - i
  {
    if i + 2 > |s| then []
    else if s[i] == '{' && s[i + 1] == '{' && FindPair(s, i + 2, '}', '}', false).Some? then
      var k := FindPair(s, i + 2, '}', '}', false).value;
      assert forall m :: i + 2 <= m < k ==> !IsLineTerminator(s[m]);
      assert NoLineTerminator(s[i + 2..k]);
      [s[i + 2..k]] + MustacheMatches(s, k + 2)
    else MustacheMatches(s, i + 1)
  }

  /** Text without `{{` holds no interpolation. */
  lemma {:induction false} NoMustacheNoMatches(s: string, i: nat)
    requires i <= |s|
    requires forall k :: i <= k < |s| - 1 ==> !(s[k] == '{' && s[k + 1] == '{')
    ensures MustacheMatches(s, i) == []
    decreases |s| - i
  {
    if i + 2 <= |s| {
      NoMustacheNoMatches(s, i + 1);
    }
  }

  /** `{{ e }}` yields `e`, and scanning resumes after its closing braces. */
  lemma MustacheMatchesOne(e: string, rest: string)
    requires NoLineTerminator(e) && '}' !in e
    ensures var s := "{{" + e + "}}" + rest;
      MustacheMatches(s, 0) == [e] + MustacheMatches(s, |e| + 4)
  {
    var s := "{{" + e + "}}" + rest;
    var k := |e| + 2;
    assert s[..2] == "{{" && s[2..k] == e && s[k..k + 2] == "}}";
    forall m | 2 <= m < k
      ensures !IsBarrier(s[m], false) && s[m] != '}'
    {
      assert s[m] == e[m - 2];
    }
    FindPairReaches(s, 2, k, '}', '}', false);
    assert s[0] == '{' && s[1] == '{';
  }

  /** The expressions added for a text chunk: each mustache, in parentheses. */
  function Parenthesized(exps: seq<string>): (r: seq<string>)
    ensures |r| == |exps| && forall k :: 0 <= k < |r| ==> r[k] == "(" + exps[k] + ")"
  {
    if |exps| == 0 then [] else Parenthesized(exps[..|exps| - 1]) + ["(" + exps[|exps| - 1] + ")"]
  }

  /* ---------- parseVueSFC ---------- */

  /** The variables the parser callbacks of `parseVueSFC` update. */
  datatype LegacyState = LegacyState(
    templateLevel: int,
    inScriptSetup: bool,
    inScript: bool,
    scriptSetup: TagMeta,
    script: TagMeta,
    components: seq<string>,
    expressions: seq<string>,
    identifiers: seq<string>)

  const Initial := LegacyState(0, false, false, EmptyMeta, EmptyMeta, [], [], [])

  /** `isHTMLTag(name) || isSVGTag(name) || isVoidTag(name)` */
  predicate IsNativeTag(tc: Toolchain, name: string)
  {
    tc.isHtmlTag(name) || tc.isSvgTag(name) || tc.isVoidTag(name)
  }

  /** A `v-` directive, an `@` event or a `:` binding. */
  predicate IsBindingKey(key: string)
  {
    StartsWith(key, "v-") || StartsWith(key, "@") || StartsWith(key, ":")
  }

  /** The expression one attribute contributes: a non-empty binding value in
      parentheses, a `v-for` value first passed through the alias pattern as
      written. */
  function AttrExpression(key: string, value: string): (r: seq<string>)
    ensures |r| <= 1
    ensures r != [] <==> value != "" && IsBindingKey(key)
    ensures r != [] && key != "v-for" ==> r == ["(" + value + ")"]
    ensures r != [] && key == "v-for" ==> r == ["(" + StripAliasAsWritten(value) + ")"]
  {
    if value != "" && IsBindingKey(key) then
      ["(" + (if key == "v-for" then StripAliasAsWritten(value) else value) + ")"]
    else []
  }

  /** `v-for="item in items"` has no word character on either side of `in`,
      so the alias pattern finds nothing and the whole value is queued. */
  lemma SpacedAliasQueuedWhole(s: string)
    requires s == "item in items"
    ensures AttrExpression("v-for", s) == ["(" + s + ")"]
  {
    NoWordAlias(s);
    assert StartsWith("v-for", "v-");
  }

  /** `in` occurs in `item in items` only between spaces. */
  lemma NoWordAlias(s: string)
    requires s == "item in items"
    ensures forall j: nat :: !AliasWith(s, j, IsWordChar)
  {
    forall j: nat | j + 4 <= |s| && IsWordChar(s[j]) && IsWordChar(s[j + 3])
      ensures s[j + 1..j + 3] != "in" && s[j + 1..j + 3] != "of"
    {
      assert s[j + 1..j + 3][1] == s[j + 2];
      assert s[4] == ' ';
      assert s[j + 2] == 'n' ==> j == 4;
      assert s[j + 2] != 'f';
    }
  }

  /** The expressions of the attributes, in order. */
  function AttrExpressions(attrs: Record): seq<string>
  {
    if |attrs| == 0 then []
    else AttrExpressions(attrs[..|attrs| - 1]) + AttrExpression(attrs[|attrs| - 1].0, attrs[|attrs| - 1].1)
  }

  /** The non-empty `ref` values among the attributes, in order. */
  function AttrRefs(attrs: Record): seq<string>
  {
    if |attrs| == 0 then []
    else
      var (key, value) := attrs[|attrs| - 1];
      AttrRefs(attrs[..|attrs| - 1]) + (if value != "" && key == "ref" then [value] else [])
  }

  /** One parser callback of `parseVueSFC`. */
  function Step(tc: Toolchain, code: string, st: LegacyState, ev: TagEvent): LegacyState
  {
    match ev
    case OpenTag(name, attrs, startIndex, endIndex) =>
      var level := if name == "template" then st.templateLevel + 1 else st.templateLevel;
      if level > 0 then
        st.(templateLevel := level,
            components := if IsNativeTag(tc, name) then st.components else Add(st.components, Pascalize(name)),
            expressions := AddAll(st.expressions, AttrExpressions(attrs)),
            identifiers := AddAll(st.identifiers, AttrRefs(attrs)))
      else if name == "script" then
        if HasKey(attrs, "setup") then
          st.(templateLevel := level, scriptSetup := OpenScript(st.scriptSetup, startIndex, endIndex, attrs), inScriptSetup := true)
        else
          st.(templateLevel := level, script := OpenScript(st.script, startIndex, endIndex, attrs), inScript := true)
      else st.(templateLevel := level)
    case TextChunk(text) =>
      if st.templateLevel > 0 then st.(expressions := AddAll(st.expressions, Parenthesized(MustacheMatches(text, 0))))
      else st
    case CloseTag(name, startIndex, endIndex) =>
      var st1 := if name == "template" then st.(templateLevel := st.templateLevel - 1) else st;
      var st2 :=
        if st1.inScriptSetup && name == "script" then
          st1.(scriptSetup := CloseScript(code, st1.scriptSetup, startIndex, endIndex), inScriptSetup := false)
        else st1;
      if st2.inScript && name == "script" then
        st2.(script := CloseScript(code, st2.script, startIndex, endIndex), inScript := false)
      else st2
  }

  function Scan(tc: Toolchain, code: string, events: seq<TagEvent>): LegacyState
  {
    if |events| == 0 then Initial
    else Step(tc, code, Scan(tc, code, events[..|events| - 1]), events[|events| - 1])
  }

  /** `Object.entries(attributes).forEach(...)` in `onopentag`. */
  method AddAttributes(attrs: Record, expressions: seq<string>, identifiers: seq<string>)
    returns (exps: seq<string>, ids: seq<string>)
    ensures exps == AddAll(expressions, AttrExpressions(attrs))
    ensures ids == AddAll(identifiers, AttrRefs(attrs))
  {
    exps, ids := expressions, identifiers;
    for i := 0 to |attrs|
      invariant exps == AddAll(expressions, AttrExpressions(attrs[..i]))
      invariant ids == AddAll(identifiers, AttrRefs(attrs[..i]))
    {
      var (key, value) := attrs[i];
      assert attrs[..i + 1][..i] == attrs[..i];
      AddAllConcat(expressions, AttrExpressions(attrs[..i]), AttrExpression(key, value));
      AddAllConcat(identifiers, AttrRefs(attrs[..i]), if value != "" && key == "ref" then [value] else []);
      if value != "" {
        if IsBindingKey(key) {
          if key == "v-for" {
            exps := Add(exps, "(" + StripAliasAsWritten(value) + ")");
          } else {
            exps := Add(exps, "(" + value + ")");
          }
        }
        if key == "ref" {
          ids := Add(ids, value);
        }
      }
    }
    assert attrs[..|attrs|] == attrs;
  }

  /** `Array.from(text.matchAll(...)).forEach(...)` in `ontext`. */
  method AddMustaches(text: string, expressions: seq<string>) returns (exps: seq<string>)
    ensures exps == AddAll(expressions, Parenthesized(MustacheMatches(text, 0)))
  {
    var matches := MustacheMatches(text, 0);
    exps := expressions;
    for i := 0 to |matches|
      invariant exps == AddAll(expressions, Parenthesized(matches[..i]))
    {
      assert matches[..i + 1][..i] == matches[..i];
      AddAllConcat(expressions, Parenthesized(matches[..i]), ["(" + matches[i] + ")"]);
      exps := Add(exps, "(" + matches[i] + ")");
    }
    assert matches[..|matches|] == matches;
  }

  /** `onopentag(name, attributes)` */
  method OnOpenTag(tc: Toolchain, code: string, st0: LegacyState, name: string, attrs: Record, startIndex: nat, endIndex: nat)
    returns (st: LegacyState)
    ensures st == Step(tc, code, st0, OpenTag(name, attrs, startIndex, endIndex))
  {
    st := st0;
    if name == "template" {
      st := st.(templateLevel := st.templateLevel + 1);
    }
    if st.templateLevel > 0 {
      if !IsNativeTag(tc, name) {
        st := st.(components := Add(st.components, Pascalize(name)));
      }
      var exps, ids := AddAttributes(attrs, st.expressions, st.identifiers);
      st := st.(expressions := exps, identifiers := ids);
    } else if name == "script" {
      if HasKey(attrs, "setup") {
        st := st.(scriptSetup := st.scriptSetup.(start := startIndex, contentStart := endIndex + 1, attrs := attrs, found := true),
                  inScriptSetup := true);
      } else {
        st := st.(script := st.script.(start := startIndex, contentStart := endIndex + 1, attrs := attrs, found := true),
                  inScript := true);
      }
    }
  }

  /** `ontext`: inside a template, the mustache expressions are collected. */
  method OnText(tc: Toolchain, code: string, st0: LegacyState, text: string) returns (st: LegacyState)
    ensures st == Step(tc, code, st0, TextChunk(text))
  {
    st := st0;
    if st.templateLevel > 0 {
      var exps := AddMustaches(text, st.expressions);
      st := st.(expressions := exps);
    }
  }

  /** `onclosetag`: a template closes a level, a script closes its block. */
  method OnCloseTag(tc: Toolchain, code: string, st0: LegacyState, name: string, startIndex: nat, endIndex: nat)
    returns (st: LegacyState)
    ensures st == Step(tc, code, st0, CloseTag(name, startIndex, endIndex))
  {
    st := st0;
    if name == "template" {
      st := st.(templateLevel := st.templateLevel - 1);
    }
    if st.inScriptSetup && name == "script" {
      st := st.(scriptSetup := st.scriptSetup.(end := endIndex + 1, contentEnd := startIndex,
                                               content := Slice(code, st.scriptSetup.contentStart, startIndex)),
                inScriptSetup := false);
    }
    if st.inScript && name == "script" {
      st := st.(script := st.script.(end := endIndex + 1, contentEnd := startIndex,
                                     content := Slice(code, st.script.contentStart, startIndex)),
                inScript := false);
    }
  }

  /** The parser run: the callbacks applied to each event, in order. */
  method ScanTags(tc: Toolchain, code: string, events: seq<TagEvent>) returns (st: LegacyState)
    ensures st == Scan(tc, code, events)
  {
    st := Initial;
    for i := 0 to |events|
      invariant st == Scan(tc, code, events[..i])
    {
      assert events[..i + 1][..i] == events[..i];
      match events[i] {
        case OpenTag(name, attrs, startIndex, endIndex) =>
          st := OnOpenTag(tc, code, st, name, attrs, startIndex, endIndex);
        case TextChunk(text) =>
          st := OnText(tc, code, st, text);
        case CloseTag(name, startIndex, endIndex) =>
          st := OnCloseTag(tc, code, st, name, startIndex, endIndex);
      }
    }
    assert events[..|events|] == events;
  }

  /** The names read by every collected expression, each parsed on its own. */
  function ExpressionUsages(tc: Toolchain, expressions: seq<string>): seq<string>
  {
    if |expressions| == 0 then []
    else ExpressionUsages(tc, expressions[..|expressions| - 1]) + LegacyUsagesAll(tc.parse(expressions[|expressions| - 1], []))
  }

  /** `expressions.forEach(exp => parse(exp).program.body.forEach(...))` */
  method AddExpressionUsages(tc: Toolchain, expressions: seq<string>, identifiers: seq<string>) returns (ids: seq<string>)
    ensures ids == AddAll(identifiers, ExpressionUsages(tc, expressions))
  {
    ids := identifiers;
    for i := 0 to |expressions|
      invariant ids == AddAll(identifiers, ExpressionUsages(tc, expressions[..i]))
    {
      assert expressions[..i + 1][..i] == expressions[..i];
      AddAllConcat(identifiers, ExpressionUsages(tc, expressions[..i]), LegacyUsagesAll(tc.parse(expressions[i], [])));
      var nodes := tc.parse(expressions[i], []);
      ids := UsagesOfEach(nodes, ids);
    }
    assert expressions[..|expressions|] == expressions;
  }

  datatype LegacyTemplate = LegacyTemplate(components: seq<string>, identifiers: seq<string>)

  datatype ParseResult = ParseResult(template: LegacyTemplate, scriptSetup: TagMeta, script: TagMeta)

  /** What `parseVueSFC(code)` returns. */
  function ParseVueSfcSpec(tc: Toolchain, code: string): ParseResult
  {
    var st := Scan(tc, code, tc.tokenize(code));
    ParseResult(LegacyTemplate(st.components, AddAll(st.identifiers, ExpressionUsages(tc, st.expressions))),
                st.scriptSetup, st.script)
  }

  /** `parseVueSFC(code)` */
  method ParseVueSfc(tc: Toolchain, code: string) returns (r: ParseResult)
    ensures r == ParseVueSfcSpec(tc, code)
  {
    var st := ScanTags(tc, code, tc.tokenize(code));
    var identifiers := AddExpressionUsages(tc, st.expressions, st.identifiers);
    r := ParseResult(LegacyTemplate(st.components, identifiers), st.scriptSetup, st.script);
  }

  /* ---------- what the scanner guarantees ---------- */

  /** The template level counts opened minus closed `<template>` tags, as in
      the current scanner. */
  lemma {:induction false} LevelIsDepth(tc: Toolchain, code: string, events: seq<TagEvent>)
    ensures Scan(tc, code, events).templateLevel == ParseSfc.TemplateDepth(events)
  {
    if |events| != 0 {
      LevelIsDepth(tc, code, events[..|events| - 1]);
    }
  }

  /** Every `<script>` open tag comes outside any `<template>`. */
  predicate ScriptsOutsideTemplates(events: seq<TagEvent>)
  {
    forall i :: 0 <= i < |events| && events[i].OpenTag? && events[i].name == "script" ==>
      ParseSfc.TemplateDepth(events[..i]) <= 0
  }

  /** The two scanners agree on the script blocks and the level. */
  predicate AgreeOnScripts(l: LegacyState, c: ParseSfc.ScanState)
  {
    && l.templateLevel == c.templateLevel
    && l.scriptSetup == c.scriptSetup && l.inScriptSetup == c.inScriptSetup
    && l.script == c.script && l.inScript == c.inScript
  }

  lemma StepAgrees(tc: Toolchain, code: string, l: LegacyState, c: ParseSfc.ScanState, ev: TagEvent)
    requires AgreeOnScripts(l, c)
    requires ev.OpenTag? && ev.name == "script" ==> c.templateLevel <= 0
    ensures AgreeOnScripts(Step(tc, code, l, ev), ParseSfc.Step(code, c, ev))
  {
    match ev
    case OpenTag(name, attrs, startIndex, endIndex) => OpenAgrees(tc, code, l, c, name, attrs, startIndex, endIndex);
    case TextChunk(text) =>
    case CloseTag(name, startIndex, endIndex) => CloseAgrees(tc, code, l, c, name, startIndex, endIndex);
  }

  lemma OpenAgrees(tc: Toolchain, code: string, l: LegacyState, c: ParseSfc.ScanState,
                   name: string, attrs: Record, startIndex: nat, endIndex: nat)
    requires AgreeOnScripts(l, c)
    requires name == "script" ==> c.templateLevel <= 0
    ensures AgreeOnScripts(Step(tc, code, l, OpenTag(name, attrs, startIndex, endIndex)),
                           ParseSfc.Step(code, c, OpenTag(name, attrs, startIndex, endIndex)))
  {
  }

  lemma CloseAgrees(tc: Toolchain, code: string, l: LegacyState, c: ParseSfc.ScanState,
                    name: string, startIndex: nat, endIndex: nat)
    requires AgreeOnScripts(l, c)
    ensures AgreeOnScripts(Step(tc, code, l, CloseTag(name, startIndex, endIndex)),
                           ParseSfc.Step(code, c, CloseTag(name, startIndex, endIndex)))
  {
  }

  /** When no script tag sits inside a template, both scanners find the same
      `<script setup>` and `<script>` blocks. */
  lemma {:induction false} ScriptsAgree(tc: Toolchain, code: string, events: seq<TagEvent>)
    requires ScriptsOutsideTemplates(events)
    ensures AgreeOnScripts(Scan(tc, code, events), ParseSfc.Scan(code, events))
  {
    if |events| != 0 {
      var p := events[..|events| - 1];
      assert ScriptsOutsideTemplates(p) by {
        forall i | 0 <= i < |p| && p[i].OpenTag? && p[i].name == "script"
          ensures ParseSfc.TemplateDepth(p[..i]) <= 0
        {
          assert p[..i] == events[..i];
        }
      }
      ScriptsAgree(tc, code, p);
      ParseSfc.LevelIsDepth(code, p);
      StepAgrees(tc, code, Scan(tc, code, p), ParseSfc.Scan(code, p), events[|events| - 1]);
    }
  }

  /** A `<script>` inside a template is not a block for this scanner. */
  lemma ScriptInTemplateIgnored(tc: Toolchain, code: string, pre: seq<TagEvent>, attrs: Record, startIndex: nat, endIndex: nat)
    requires ParseSfc.TemplateDepth(pre) > 0
    ensures var a, b := Scan(tc, code, pre), Scan(tc, code, pre + [OpenTag("script", attrs, startIndex, endIndex)]);
      && b.scriptSetup == a.scriptSetup && b.inScriptSetup == a.inScriptSetup
      && b.script == a.script && b.inScript == a.inScript
  {
    LevelIsDepth(tc, code, pre);
    var all := pre + [OpenTag("script", attrs, startIndex, endIndex)];
    assert all[..|all| - 1] == pre;
  }

  /** The open tag at `i` is a non-native tag inside a template, whose name
      gives the component `c`. */
  predicate ComponentAt(tc: Toolchain, events: seq<TagEvent>, i: int, c: string)
  {
    && 0 <= i < |events|
    && events[i].OpenTag?
    && !IsNativeTag(tc, events[i].name)
    && ParseSfc.TemplateDepth(events[..i + 1]) > 0
    && c == Pascalize(events[i].name)
  }

  /** One callback adds a component only for a non-native open tag once the
      level, counting that tag, is positive. */
  lemma StepComponents(tc: Toolchain, code: string, st: LegacyState, ev: TagEvent, c: string)
    ensures c in Step(tc, code, st, ev).components <==>
      || c in st.components
      || (ev.OpenTag? && !IsNativeTag(tc, ev.name) && st.templateLevel + ParseSfc.TemplateDelta(ev) > 0 && c == Pascalize(ev.name))
  {
  }

  /** The components are exactly the PascalCase names of the non-native tags
      opened inside a template. */
  lemma {:induction false} ComponentsFromCustomTags(tc: Toolchain, code: string, events: seq<TagEvent>, c: string)
    ensures c in Scan(tc, code, events).components <==> exists i :: ComponentAt(tc, events, i, c)
  {
    if |events| != 0 {
      var n := |events| - 1;
      var p := events[..n];
      ComponentsFromCustomTags(tc, code, p, c);
      ScanLastComponents(tc, code, events, c);
      ComponentsSnoc(tc, events, p, c, c in Scan(tc, code, events).components, c in Scan(tc, code, p).components);
    }
  }

  /** The components of a list of events are those of its prefix and the one
      its last event may add. */
  lemma ComponentsSnoc(tc: Toolchain, events: seq<TagEvent>, p: seq<TagEvent>, c: string, inAll: bool, inPrefix: bool)
    requires |events| > 0 && p == events[..|events| - 1]
    requires inPrefix <==> exists i :: ComponentAt(tc, p, i, c)
    requires inAll <==> inPrefix || ComponentAt(tc, events, |events| - 1, c)
    ensures inAll <==> exists i :: ComponentAt(tc, events, i, c)
  {
    var n := |events| - 1;
    if inPrefix {
      var i :| ComponentAt(tc, p, i, c);
      ComponentAtPrefix(tc, events, n, i, c);
    }
    if exists i :: ComponentAt(tc, events, i, c) {
      var i :| ComponentAt(tc, events, i, c);
      if i < n {
        ComponentAtPrefix(tc, events, n, i, c);
      }
    }
  }

  /** The last event adds a component exactly when it is one. */
  lemma ScanLastComponents(tc: Toolchain, code: string, events: seq<TagEvent>, c: string)
    requires |events| > 0
    ensures var n := |events| - 1;
      c in Scan(tc, code, events).components <==> c in Scan(tc, code, events[..n]).components || ComponentAt(tc, events, n, c)
  {
    var n := |events| - 1;
    var p := events[..n];
    LevelIsDepth(tc, code, p);
    var st := Scan(tc, code, p);
    assert Scan(tc, code, events) == Step(tc, code, st, events[n]);
    StepComponents(tc, code, st, events[n], c);
    ComponentAtLast(tc, events, c);
  }

  /** Before `n`, a component of `events` is one of its first `n` events. */
  lemma ComponentAtPrefix(tc: Toolchain, events: seq<TagEvent>, n: nat, i: int, c: string)
    requires 0 <= i < n <= |events|
    ensures ComponentAt(tc, events, i, c) <==> ComponentAt(tc, events[..n], i, c)
  {
    assert events[..n][..i + 1] == events[..i + 1];
  }

  /** The last event gives a component by the step's own condition. */
  lemma ComponentAtLast(tc: Toolchain, events: seq<TagEvent>, c: string)
    requires |events| > 0
    ensures var n := |events| - 1;
      ComponentAt(tc, events, n, c) <==>
        events[n].OpenTag? && !IsNativeTag(tc, events[n].name)
        && ParseSfc.TemplateDepth(events[..n]) + ParseSfc.TemplateDelta(events[n]) > 0 && c == Pascalize(events[n].name)
  {
    assert events[..|events|] == events;
  }

  /* Cases of the walkers on the statements Babel produces for small programs. */

  /** `foo.bar` reads `foo`. */
  lemma UsageOfMember()
    ensures LegacyUsagesAll([ExpressionStatement(Member("foo", "bar"))]) == ["foo"]
  {
  }

  /** `foo(bar, console.log)` reads `foo`, `bar` and `console`. */
  lemma UsageOfCall()
    ensures LegacyUsagesAll([ExpressionStatement(CallExpression(Identifier("foo"),
      [Identifier("bar"), Member("console", "log")], None, false))]) == ["foo", "bar", "console"]
  {
    var args := [Identifier("bar"), Member("console", "log")];
    assert args[..1] == [Identifier("bar")] && args[..1][..0] == [];
    assert LegacyUsagesAll(args) == ["bar", "console"];
    var call := CallExpression(Identifier("foo"), args, None, false);
    assert LegacyUsages(ExpressionStatement(call)) == ["foo", "bar", "console"];
    assert [ExpressionStatement(call)][..0] == [];
  }

  /** `var a = 1` declares `a`; `function b() {}` declares only `b`. */
  lemma DeclarationCases(body: Node)
    ensures DeclaredAll([VariableDeclaration("var", false, [Declarator(Identifier("a"), Some(Literal(NumericLiteral(1))))]),
                         FunctionNode(FunctionDeclaration, Some("b"), [], body, false)]) == [Value("a"), Value("b")]
  {
    var nodes := [VariableDeclaration("var", false, [Declarator(Identifier("a"), Some(Literal(NumericLiteral(1))))]),
                  FunctionNode(FunctionDeclaration, Some("b"), [], body, false)];
    var decls := [Declarator(Identifier("a"), Some(Literal(NumericLiteral(1))))];
    assert decls[..0] == [];
    assert Declared(nodes[0]) == [Value("a")];
    assert Declared(nodes[1]) == [Value("b")];
    assert nodes[..1] == [nodes[0]] && nodes[..1][..0] == [];
    assert DeclaredAll(nodes[..1]) == [Value("a")];
  }
}
