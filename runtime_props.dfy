/**
 * Runtime props from a type-based `defineProps<T>()` (`src/core/macros.ts`):
 * `inferRuntimeType`, `extractRuntimeProps` and `genRuntimeProps`.
 */
module RuntimeProps {
  import opened Js
  import opened BabelAst

  /** The constructor names a runtime prop declaration can mention, and `null`
      for "no check". */
  const RuntimeTypeNames: set<string> :=
    {"String", "Number", "Boolean", "Object", "Function", "Array", "Set", "Map", "WeakSet", "WeakMap", "null"}

  /** Type references the runtime knows by a constructor of the same name. */
  predicate IsConstructorName(name: string)
  {
    name in {"Array", "Function", "Object", "Set", "Map", "WeakSet", "WeakMap"}
  }

  /** Utility types whose values are objects. */
  predicate IsObjectUtility(name: string)
  {
    name in {"Record", "Partial", "Readonly", "Pick", "Omit", "Exclude", "Extract", "Required", "InstanceType"}
  }

  /** `inferRuntimeType(node, declaredTypes)` with no declared types: the runtime
      constructors a value of type `t` can have. A union gathers its members'
      constructors once each, in order of first appearance. */
  function InferRuntimeType(t: TSType): (r: seq<string>)
    ensures forall x :: x in r ==> x in RuntimeTypeNames
    ensures NoDuplicates(r)
    ensures !t.TSUnionType? && !t.TSParenthesizedType? ==> |r| == 1
    decreases t, 1
  {
    match t
    case TSStringKeyword => ["String"]
    case TSNumberKeyword => ["Number"]
    case TSBooleanKeyword => ["Boolean"]
    case TSObjectKeyword => ["Object"]
    case TSTypeLiteral(_) => ["Object"]
    case TSFunctionType => ["Function"]
    case TSArrayType | TSTupleType => ["Array"]
    case TSLiteralType(literal) =>
      (match literal
       case StringLit => ["String"]
       case BooleanLit => ["Boolean"]
       case NumericLit | BigIntLit => ["Number"]
       case OtherLit => ["null"])
    case TSTypeReference(typeName) =>
      if typeName.TypeIdentifier? && IsConstructorName(typeName.name) then [typeName.name]
      else if typeName.TypeIdentifier? && IsObjectUtility(typeName.name) then ["Object"]
      else ["null"]
    case TSParenthesizedType(inner) => InferRuntimeType(inner)
    case TSUnionType(types) => Dedup(InferConcat(types))
    case TSIntersectionType(_) => ["Object"]
    case TSOtherType(_) => ["null"]
  }

  /** `[].concat(...types.map(inferRuntimeType))` */
  function InferConcat(types: seq<TSType>): (r: seq<string>)
    ensures forall x :: x in r ==> x in RuntimeTypeNames
    decreases types, 0
  {
    if |types| == 0 then [] else InferConcat(types[..|types| - 1]) + InferRuntimeType(types[|types| - 1])
  }

  /** A union allows exactly the constructors one of its members allows. */
  lemma UnionConstructors(types: seq<TSType>, x: string)
    ensures x in InferRuntimeType(TSUnionType(types)) <==> exists k :: 0 <= k < |types| && x in InferRuntimeType(types[k])
  {
    ConcatConstructors(types, x);
  }

  lemma {:induction false} ConcatConstructors(types: seq<TSType>, x: string)
    ensures x in InferConcat(types) <==> exists k :: 0 <= k < |types| && x in InferRuntimeType(types[k])
  {
    if |types| != 0 {
      var p := types[..|types| - 1];
      ConcatConstructors(p, x);
      assert forall k :: 0 <= k < |p| ==> p[k] == types[k];
    }
  }

  /** `type` of a `PropTypeData`: one constructor name, or a list of them. */
  datatype PropType = OneType(name: string) | TypeList(names: seq<string>)

  datatype PropTypeData = PropTypeData(key: string, typ: PropType, required: bool)

  /** `type?.length === 1 ? type[0] : type || 'null'` */
  function Collapse(types: Option<seq<string>>): (p: PropType)
    ensures types.None? ==> p == OneType("null")
    ensures types.Some? && |types.value| == 1 ==> p == OneType(types.value[0])
    ensures types.Some? && |types.value| != 1 ==> p == TypeList(types.value)
  {
    match types
    case None => OneType("null")
    case Some(ts) => if |ts| == 1 then OneType(ts[0]) else TypeList(ts)
  }

  /** The entry one interface or type-literal member declares: only property and
      method signatures with identifier keys declare a prop; a method is a
      `Function`, a property without annotation is unchecked (`null`). */
  function PropData(m: TSMember): Option<(string, PropTypeData)>
  {
    match m
    case TSPropertySignature(KeyIdentifier(name), optional, annotation) =>
      var types := if annotation.Some? then Some(InferRuntimeType(annotation.value)) else None;
      Some((name, PropTypeData(name, Collapse(types), !optional)))
    case TSMethodSignature(KeyIdentifier(name), optional) =>
      Some((name, PropTypeData(name, Collapse(Some(["Function"])), !optional)))
    case TSPropertySignature(KeyOther, _, _) | TSMethodSignature(KeyOther, _) | TSOtherMember(_) => None
  }

  /** `props` after `extractRuntimeProps` has written each member in turn. */
  function ExtractInto(props: Entries<PropTypeData>, members: seq<TSMember>): Entries<PropTypeData>
  {
    if |members| == 0 then props
    else
      var before := ExtractInto(props, members[..|members| - 1]);
      match PropData(members[|members| - 1])
      case None => before
      case Some((name, data)) => Put(before, name, data)
  }

  /** `extractRuntimeProps(node, props, declaredTypes)` */
  method ExtractRuntimeProps(members: seq<TSMember>, props0: Entries<PropTypeData>) returns (props: Entries<PropTypeData>)
    ensures props == ExtractInto(props0, members)
  {
    props := props0;
    for i := 0 to |members|
      invariant props == ExtractInto(props0, members[..i])
    {
      assert members[..i + 1][..i] == members[..i];
      match members[i] {
        case TSPropertySignature(KeyIdentifier(name), optional, annotation) =>
          var types: Option<seq<string>> := None;
          if annotation.Some? {
            types := Some(InferRuntimeType(annotation.value));
          }
          props := Put(props, name, PropTypeData(name, Collapse(types), !optional));
        case TSMethodSignature(KeyIdentifier(name), optional) =>
          props := Put(props, name, PropTypeData(name, Collapse(Some(["Function"])), !optional));
        case TSPropertySignature(KeyOther, _, _) | TSMethodSignature(KeyOther, _) | TSOtherMember(_) =>
      }
    }
    assert members[..|members|] == members;
  }

  /** The data of the last member that declares `k`, searching from the end. */
  function LastPropData(members: seq<TSMember>, k: string): Option<PropTypeData>
  {
    if |members| == 0 then None
    else
      var d := PropData(members[|members| - 1]);
      if d.Some? && d.value.0 == k then Some(d.value.1) else LastPropData(members[..|members| - 1], k)
  }

  /** A member declared twice is described by its last declaration; an
      undeclared key keeps what `props` held. */
  lemma {:induction false} ExtractLastWins(props: Entries<PropTypeData>, members: seq<TSMember>, k: string)
    ensures Get(ExtractInto(props, members), k) == if LastPropData(members, k).Some? then LastPropData(members, k) else Get(props, k)
  {
    if |members| != 0 {
      var p := members[..|members| - 1];
      ExtractLastWins(props, p, k);
      var d := PropData(members[|members| - 1]);
      if d.Some? {
        GetPut(ExtractInto(props, p), d.value.0, d.value.1, k);
      }
    }
  }

  /** Each prop key appears once, in order of first declaration. */
  lemma {:induction false} ExtractUniqueKeys(props: Entries<PropTypeData>, members: seq<TSMember>)
    requires UniqueKeys(props)
    ensures UniqueKeys(ExtractInto(props, members))
  {
    if |members| != 0 {
      ExtractUniqueKeys(props, members[..|members| - 1]);
    }
  }

  /** The defaults object of `withDefaults` is a literal whose properties are all
      plain, non-computed properties. */
  predicate HasStaticDefaults(defaults: Option<Node>)
  {
    && defaults.Some?
    && defaults.value.ObjectExpression?
    && forall m :: m in defaults.value.properties ==> m.ObjectProperty? && !m.computed
  }

  /** `properties.find(node => node.key.name === key)` */
  function FindDefault(properties: seq<ObjectMember>, key: string): (r: Option<ObjectMember>)
    ensures r.Some? ==> r.value in properties && r.value.ObjectProperty? && r.value.key == Identifier(key)
    ensures r.None? ==> forall m :: m in properties && m.ObjectProperty? ==> m.key != Identifier(key)
  {
    if |properties| == 0 then None
    else if properties[0].ObjectProperty? && properties[0].key == Identifier(key) then Some(properties[0])
    else FindDefault(properties[1..], key)
  }

  /** The default given for `key`, when the defaults are static. */
  function DefaultFor(defaults: Option<Node>, key: string): Option<ObjectMember>
  {
    if HasStaticDefaults(defaults) then FindDefault(defaults.value.properties, key) else None
  }

  /** `t.objectProperty(t.identifier(key), value)` */
  function Property(key: string, value: Node): ObjectMember
  {
    ObjectProperty(Identifier(key), value, false, false)
  }

  /** The `type` entry: an identifier, or an array of identifiers. */
  function TypeExpression(p: PropType): Node
  {
    match p
    case OneType(name) => Identifier(name)
    case TypeList(names) => ArrayExpression(seq(|names|, i requires 0 <= i < |names| => Some(Identifier(names[i]))))
  }

  /** The runtime declaration of one prop. */
  function PropEntry(key: string, data: PropTypeData, defaults: Option<Node>): ObjectMember
  {
    if data.typ == OneType("null") then Property(key, Literal(NullLiteral))
    else
      var prop := DefaultFor(defaults, key);
      var required := if prop.Some? then false else data.required;
      var entries := [Property("key", Literal(StringLiteral(data.key))),
                      Property("required", Literal(BooleanLiteral(required))),
                      Property("type", TypeExpression(data.typ))];
      Property(key, ObjectExpression(entries + if prop.Some? then [Property("default", prop.value.value)] else []))
  }

  /** `genRuntimeProps(props)`: one property per prop, in order; nothing at all
      when there are no props. */
  function GenRuntimeProps(props: Entries<PropTypeData>, defaults: Option<Node>): (r: Option<Node>)
    ensures r.None? <==> |props| == 0
    ensures r.Some? ==> r.value.ObjectExpression? && |r.value.properties| == |props|
    ensures r.Some? ==> forall i :: 0 <= i < |props| ==>
      r.value.properties[i].ObjectProperty? && r.value.properties[i].key == Identifier(props[i].0)
  {
    if |props| == 0 then None
    else Some(ObjectExpression(seq(|props|, i requires 0 <= i < |props| => PropEntry(props[i].0, props[i].1, defaults))))
  }

  /** A prop with a static default is optional at runtime and carries the
      default's value. */
  lemma DefaultMakesOptional(key: string, data: PropTypeData, defaults: Option<Node>, value: Node)
    requires data.typ != OneType("null") && HasStaticDefaults(defaults)
    requires FindDefault(defaults.value.properties, key) == Some(ObjectProperty(Identifier(key), value, false, false))
    ensures var e := PropEntry(key, data, defaults).value;
      && e.ObjectExpression? && |e.properties| == 4
      && e.properties[1] == Property("required", Literal(BooleanLiteral(false)))
      && e.properties[3] == Property("default", value)
  {
    var prop := Some(ObjectProperty(Identifier(key), value, false, false));
    assert DefaultFor(defaults, key) == prop;
    var entries := [Property("key", Literal(StringLiteral(data.key))),
                    Property("required", Literal(BooleanLiteral(false))),
                    Property("type", TypeExpression(data.typ))];
    assert PropEntry(key, data, defaults) == Property(key, ObjectExpression(entries + [Property("default", value)]));
  }

  /** A member declaring a prop names it by its own key, is required exactly
      when it is not optional, and has type `Function` if it is a method and
      `null` (unchecked) if it is a property without annotation. */
  lemma PropDataFields(m: TSMember)
    ensures PropData(m).Some? <==> (m.TSPropertySignature? || m.TSMethodSignature?) && m.key.KeyIdentifier?
    ensures PropData(m).Some? ==>
      var (name, d) := PropData(m).value;
      && name == m.key.name && d.key == name
      && d.required == !m.optional
      && (m.TSMethodSignature? ==> d.typ == OneType("Function"))
      && (m.TSPropertySignature? && m.typeAnnotation.None? ==> d.typ == OneType("null"))
      && (m.TSPropertySignature? && m.typeAnnotation.Some? ==> d.typ == Collapse(Some(InferRuntimeType(m.typeAnnotation.value))))
  {
  }

  /** `genRuntimeProps` gives each prop its own entry, in order. */
  lemma GenRuntimePropsEntries(props: Entries<PropTypeData>, defaults: Option<Node>, i: nat)
    requires i < |props|
    ensures GenRuntimeProps(props, defaults).value.properties[i] == PropEntry(props[i].0, props[i].1, defaults)
  {
  }

  /** An unchecked prop is declared as `key: null`. */
  lemma UncheckedPropIsNull(key: string, data: PropTypeData, defaults: Option<Node>)
    requires data.typ == OneType("null")
    ensures PropEntry(key, data, defaults) == ObjectProperty(Identifier(key), Literal(NullLiteral), false, false)
  {
  }

  /** Any other prop is declared as `{ key, required, type }`, followed by
      `default` exactly when a static default exists; it is required exactly
      when it was declared required and has no default. */
  lemma CheckedPropEntries(key: string, data: PropTypeData, defaults: Option<Node>)
    requires data.typ != OneType("null")
    ensures var e := PropEntry(key, data, defaults);
      && e.key == Identifier(key)
      && e.value.ObjectExpression?
      && |e.value.properties| == (if DefaultFor(defaults, key).Some? then 4 else 3)
      && e.value.properties[0] == Property("key", Literal(StringLiteral(data.key)))
      && e.value.properties[1] == Property("required", Literal(BooleanLiteral(data.required && DefaultFor(defaults, key).None?)))
      && e.value.properties[2] == Property("type", TypeExpression(data.typ))
  {
  }

  /** The `type` entry names every inferred constructor, in order. */
  lemma TypeExpressionNames(p: PropType)
    ensures p.OneType? ==> TypeExpression(p) == Identifier(p.name)
    ensures p.TypeList? ==>
      && TypeExpression(p).ArrayExpression?
      && |TypeExpression(p).elements| == |p.names|
      && forall k :: 0 <= k < |p.names| ==> TypeExpression(p).elements[k] == Some(Identifier(p.names[k]))
  {
  }
}
