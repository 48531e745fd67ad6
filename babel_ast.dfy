/**
 * The part of Babel's AST the transform inspects or builds. Babel's parser is
 * not part of this model: its output is taken as a value of these types.
 * Node kinds the transform never looks into are `OtherNode(kind)`.
 */
module BabelAst {
  import opened Js

  datatype LiteralValue =
    | StringLiteral(s: string)
    | NumericLiteral(n: int)
    | BigIntLiteral(digits: string)
    | BooleanLiteral(b: bool)
    | NullLiteral
    | RegExpLiteral(pattern: string)

  datatype FunctionKind = ArrowFunctionExpression | FunctionExpression | FunctionDeclaration

  /** `typeName` of a `TSTypeReference`: an `Identifier` or a qualified name `A.B`. */
  datatype TypeName = TypeIdentifier(name: string) | QualifiedName(left: TypeName, right: string)

  /** Key of an interface or type-literal member: an `Identifier` or anything else
      (a string literal, a computed key). */
  datatype PropertyKey = KeyIdentifier(name: string) | KeyOther

  /** The `literal` of a `TSLiteralType`. */
  datatype TypeLiteralKind = StringLit | BooleanLit | NumericLit | BigIntLit | OtherLit

  datatype TSType =
    | TSStringKeyword
    | TSNumberKeyword
    | TSBooleanKeyword
    | TSObjectKeyword
    | TSTypeLiteral(members: seq<TSMember>)
    | TSFunctionType
    | TSArrayType
    | TSTupleType
    | TSLiteralType(literal: TypeLiteralKind)
    | TSTypeReference(typeName: TypeName)
    | TSParenthesizedType(typeAnnotation: TSType)
    | TSUnionType(types: seq<TSType>)
    | TSIntersectionType(types: seq<TSType>)
    | TSOtherType(kind: string)

  datatype TSMember =
    | TSPropertySignature(key: PropertyKey, optional: bool, typeAnnotation: Option<TSType>)
    | TSMethodSignature(key: PropertyKey, optional: bool)
    | TSOtherMember(kind: string)

  datatype Node =
    | Identifier(name: string)
    | Literal(value: LiteralValue)
    /** `MemberExpression`, or `OptionalMemberExpression` when `optional`. */
    | MemberExpression(object: Node, property: Node, computed: bool, optional: bool)
    /** `CallExpression`, or `OptionalCallExpression` when `optional`; `typeArgument`
        is the first type parameter `f<T>()`, when there is one. */
    | CallExpression(callee: Node, arguments: seq<Node>, typeArgument: Option<TSType>, optional: bool)
    | NewExpression(callee: Node, arguments: seq<Node>)
    /** `BinaryExpression`, or `LogicalExpression` when `logical`. */
    | BinaryExpression(operator: string, left: Node, right: Node, logical: bool)
    | UnaryExpression(operator: string, argument: Node)
    | ConditionalExpression(test: Node, consequent: Node, alternate: Node)
    | ObjectExpression(properties: seq<ObjectMember>)
    /** Holes are `None`. */
    | ArrayExpression(elements: seq<Option<Node>>)
    | SpreadElement(argument: Node)
    | TemplateLiteral(quasis: seq<string>, expressions: seq<Node>)
    | FunctionNode(fnKind: FunctionKind, fnId: Option<string>, params: seq<Node>, fnBody: Node, isAsync: bool)
    | AwaitExpression(argument: Node)
    | AssignmentExpression(operator: string, left: Node, right: Node)
    | ExpressionStatement(expression: Node)
    | BlockStatement(body: seq<Node>)
    | ReturnStatement(returned: Option<Node>)
    /** `ForOfStatement`, or `ForInStatement` when not `isOf`. */
    | ForInOfStatement(isOf: bool, left: Node, right: Node, loopBody: Node)
    | VariableDeclaration(declKind: string, declare: bool, declarations: seq<Declarator>)
    /** The local names of the specifiers, and the source module. */
    | ImportDeclaration(specifiers: seq<string>, source: string)
    | ExportNamedDeclaration(declaration: Option<Node>)
    | ExportDefaultDeclaration(exported: Node)
    | TSInterfaceDeclaration(name: string, members: seq<TSMember>)
    | TSTypeAliasDeclaration(name: string, aliased: TSType)
    /** Any other node kind, named by its Babel `type` (`ThisExpression`,
        `ClassDeclaration`, `ObjectPattern`, `TSEnumDeclaration`, ...). */
    | OtherNode(nodeKind: string)

  datatype ObjectMember =
    | ObjectProperty(key: Node, value: Node, computed: bool, shorthand: bool)
    | ObjectSpread(argument: Node)
    | ObjectMethod(key: Node, computed: bool, body: Node)

  datatype Declarator = Declarator(id: Node, init: Option<Node>)

  /** Babel's `node.type`. */
  function Type(n: Node): string
  {
    match n
    case Identifier(_) => "Identifier"
    case Literal(v) =>
      (match v
       case StringLiteral(_) => "StringLiteral"
       case NumericLiteral(_) => "NumericLiteral"
       case BigIntLiteral(_) => "BigIntLiteral"
       case BooleanLiteral(_) => "BooleanLiteral"
       case NullLiteral => "NullLiteral"
       case RegExpLiteral(_) => "RegExpLiteral")
    case MemberExpression(_, _, _, optional) => if optional then "OptionalMemberExpression" else "MemberExpression"
    case CallExpression(_, _, _, optional) => if optional then "OptionalCallExpression" else "CallExpression"
    case NewExpression(_, _) => "NewExpression"
    case BinaryExpression(_, _, _, logical) => if logical then "LogicalExpression" else "BinaryExpression"
    case UnaryExpression(_, _) => "UnaryExpression"
    case ConditionalExpression(_, _, _) => "ConditionalExpression"
    case ObjectExpression(_) => "ObjectExpression"
    case ArrayExpression(_) => "ArrayExpression"
    case SpreadElement(_) => "SpreadElement"
    case TemplateLiteral(_, _) => "TemplateLiteral"
    case FunctionNode(kind, _, _, _, _) =>
      (match kind
       case ArrowFunctionExpression => "ArrowFunctionExpression"
       case FunctionExpression => "FunctionExpression"
       case FunctionDeclaration => "FunctionDeclaration")
    case AwaitExpression(_) => "AwaitExpression"
    case AssignmentExpression(_, _, _) => "AssignmentExpression"
    case ExpressionStatement(_) => "ExpressionStatement"
    case BlockStatement(_) => "BlockStatement"
    case ReturnStatement(_) => "ReturnStatement"
    case ForInOfStatement(isOf, _, _, _) => if isOf then "ForOfStatement" else "ForInStatement"
    case VariableDeclaration(_, _, _) => "VariableDeclaration"
    case ImportDeclaration(_, _) => "ImportDeclaration"
    case ExportNamedDeclaration(_) => "ExportNamedDeclaration"
    case ExportDefaultDeclaration(_) => "ExportDefaultDeclaration"
    case TSInterfaceDeclaration(_, _) => "TSInterfaceDeclaration"
    case TSTypeAliasDeclaration(_, _) => "TSTypeAliasDeclaration"
    case OtherNode(kind) => kind
  }

  /** Node kinds that are expressions, which Babel never places directly in a
      statement list (an expression there is wrapped in `ExpressionStatement`). */
  predicate IsExpression(n: Node)
  {
    || n.Identifier? || n.Literal? || n.MemberExpression? || n.CallExpression?
    || n.NewExpression? || n.BinaryExpression? || n.UnaryExpression?
    || n.ConditionalExpression? || n.ObjectExpression? || n.ArrayExpression?
    || n.SpreadElement? || n.TemplateLiteral? || n.AwaitExpression? || n.AssignmentExpression?
    || (n.FunctionNode? && n.fnKind != FunctionDeclaration)
  }

  /** `isCallOf(node, name)`: a (non-optional) call whose callee is the identifier `name`. */
  predicate IsCallOf(node: Option<Node>, name: string)
  {
    && node.Some?
    && node.value.CallExpression?
    && !node.value.optional
    && node.value.callee == Identifier(name)
  }

  /** `arguments[i]`, or `undefined` past the end. */
  function Argument(call: Node, i: nat): (a: Option<Node>)
    requires call.CallExpression?
    ensures a.Some? <==> i < |call.arguments|
  {
    if i < |call.arguments| then Some(call.arguments[i]) else None
  }

  // Builders for the nodes the transform synthesises.

  /** `obj.prop` */
  function Member(obj: string, prop: string): Node
  {
    MemberExpression(Identifier(obj), Identifier(prop), false, false)
  }

  /** `const name = init` */
  function ConstDecl(name: string, init: Node): Node
  {
    VariableDeclaration("const", false, [Declarator(Identifier(name), Some(init))])
  }

  /** `obj.prop = value;` */
  function AssignProperty(obj: string, prop: string, value: Node): Node
  {
    ExpressionStatement(AssignmentExpression("=", Member(obj, prop), value))
  }

  /** `Object.assign(first, second)` */
  function ObjectAssign(first: Node, second: Node): Node
  {
    CallExpression(Member("Object", "assign"), [first, second], None, false)
  }

  /** The shorthand property `{ name }`. */
  function Shorthand(name: string): ObjectMember
  {
    ObjectProperty(Identifier(name), Identifier(name), false, true)
  }

  /** An object literal of shorthand properties, one per name. */
  function ShorthandObject(names: seq<string>): (o: Node)
    ensures o.ObjectExpression? && |o.properties| == |names|
    ensures forall i :: 0 <= i < |names| ==> o.properties[i] == Shorthand(names[i])
  {
    ObjectExpression(seq(|names|, i requires 0 <= i < |names| => Shorthand(names[i])))
  }
}
