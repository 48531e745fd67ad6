/**
 * The template walkers of `parseSFC` (`src/core/parseSFC.ts`): the component
 * tags, directive names and free identifiers of the first top-level
 * `<template>` element.
 */
module TemplateRefs {
  import opened Js
  import opened Utils
  import opened BabelAst
  import opened Identifiers
  import opened TemplateAst
  import opened Parsers

  /** `BUILD_IN_DIRECTIVES` */
  const BuiltInDirectives: seq<string> :=
    ["if", "else", "else-if", "for", "once", "model", "on", "bind", "slot", "slot-scope",
     "key", "ref", "text", "html", "show", "pre", "cloak"]

  /* ---------- getComponents ---------- */

  /** `getComponents`: the tag of every native-element or component element, in
      document order, walking into element, `if`-branch and `for` children. */
  function Components(n: TNode): seq<string>
    decreases n, 1
  {
    match n
    case Element(tag, tagType, _, children) =>
      (if tagType == ComponentTag || tagType == ElementTag then [tag] else []) + ComponentsAll(children)
    case If(branches) => ComponentsAll(branches)
    case IfBranch(_, children) => ComponentsAll(children)
    case For(_, children) => ComponentsAll(children)
    case Text(_) | Comment(_) | SimpleExpression(_, _) | Interpolation(_) | CompoundExpression(_) | TextCall(_) => []
  }

  /** `nodes.flatMap(getComponents)` */
  function ComponentsAll(ns: seq<TNode>): seq<string>
    decreases ns, 0
  {
    if |ns| == 0 then [] else Components(ns[0]) + ComponentsAll(ns[1..])
  }

  /* ---------- getDirectiveNames ---------- */

  /** The names of the directives among an element's props, in order. */
  function PropDirectiveNames(props: seq<Prop>): seq<string>
  {
    if |props| == 0 then []
    else (if props[0].Directive? then [props[0].dirName] else []) + PropDirectiveNames(props[1..])
  }

  /** `getDirectiveNames`: each element's directive names, then its children's. */
  function DirectiveNames(n: TNode): seq<string>
    decreases n, 1
  {
    match n
    case Element(_, _, props, children) => PropDirectiveNames(props) + DirectiveNamesAll(children)
    case If(branches) => DirectiveNamesAll(branches)
    case IfBranch(_, children) => DirectiveNamesAll(children)
    case For(_, children) => DirectiveNamesAll(children)
    case Text(_) | Comment(_) | SimpleExpression(_, _) | Interpolation(_) | CompoundExpression(_) | TextCall(_) => []
  }

  function DirectiveNamesAll(ns: seq<TNode>): seq<string>
    decreases ns, 0
  {
    if |ns| == 0 then [] else DirectiveNames(ns[0]) + DirectiveNamesAll(ns[1..])
  }

  /* ---------- a reference walk: the elements, in document order ---------- */

  /** Every element the two walkers above visit, each before its descendants. */
  function Elements(n: TNode): seq<TNode>
    decreases n, 1
  {
    match n
    case Element(_, _, _, children) => [n] + ElementsAll(children)
    case If(branches) => ElementsAll(branches)
    case IfBranch(_, children) => ElementsAll(children)
    case For(_, children) => ElementsAll(children)
    case Text(_) | Comment(_) | SimpleExpression(_, _) | Interpolation(_) | CompoundExpression(_) | TextCall(_) => []
  }

  function ElementsAll(ns: seq<TNode>): seq<TNode>
    decreases ns, 0
  {
    if |ns| == 0 then [] else Elements(ns[0]) + ElementsAll(ns[1..])
  }

  /** The tags of the native-element and component elements of a list. */
  function TagsOf(es: seq<TNode>): seq<string>
  {
    if |es| == 0 then []
    else
      var own := if es[0].Element? && (es[0].tagType == ComponentTag || es[0].tagType == ElementTag) then [es[0].tag] else [];
      own + TagsOf(es[1..])
  }

  /** The directive names of the elements of a list. */
  function DirectivesOf(es: seq<TNode>): seq<string>
  {
    if |es| == 0 then []
    else (if es[0].Element? then PropDirectiveNames(es[0].props) else []) + DirectivesOf(es[1..])
  }

  lemma {:induction false} TagsOfConcat(xs: seq<TNode>, ys: seq<TNode>)
    ensures TagsOf(xs + ys) == TagsOf(xs) + TagsOf(ys)
  {
    if |xs| == 0 {
      assert xs + ys == ys;
    } else {
      assert (xs + ys)[1..] == xs[1..] + ys;
      TagsOfConcat(xs[1..], ys);
    }
  }

  lemma {:induction false} DirectivesOfConcat(xs: seq<TNode>, ys: seq<TNode>)
    ensures DirectivesOf(xs + ys) == DirectivesOf(xs) + DirectivesOf(ys)
  {
    if |xs| == 0 {
      assert xs + ys == ys;
    } else {
      assert (xs + ys)[1..] == xs[1..] + ys;
      DirectivesOfConcat(xs[1..], ys);
    }
  }

  /** The reported components are exactly the tags of the native-element and
      component elements, in document order: native tags are not filtered out,
      and `<slot>`/`<template>` elements contribute only their children. */
  lemma {:induction false} ComponentsAreElementTags(n: TNode)
    ensures Components(n) == TagsOf(Elements(n))
    decreases n, 1
  {
    match n
    case Element(_, _, _, children) =>
      ComponentsAreElementTagsAll(children);
      TagsOfConcat([n], ElementsAll(children));
    case If(branches) => ComponentsAreElementTagsAll(branches);
    case IfBranch(_, children) => ComponentsAreElementTagsAll(children);
    case For(_, children) => ComponentsAreElementTagsAll(children);
    case Text(_) | Comment(_) | SimpleExpression(_, _) | Interpolation(_) | CompoundExpression(_) | TextCall(_) =>
  }

  lemma {:induction false} ComponentsAreElementTagsAll(ns: seq<TNode>)
    ensures ComponentsAll(ns) == TagsOf(ElementsAll(ns))
    decreases ns, 0
  {
    if |ns| != 0 {
      ComponentsAreElementTags(ns[0]);
      ComponentsAreElementTagsAll(ns[1..]);
      TagsOfConcat(Elements(ns[0]), ElementsAll(ns[1..]));
    }
  }

  /** The directive walker visits the same elements as the component walker. */
  lemma {:induction false} DirectiveNamesOfElements(n: TNode)
    ensures DirectiveNames(n) == DirectivesOf(Elements(n))
    decreases n, 1
  {
    match n
    case Element(_, _, _, children) =>
      DirectiveNamesOfElementsAll(children);
      DirectivesOfConcat([n], ElementsAll(children));
    case If(branches) => DirectiveNamesOfElementsAll(branches);
    case IfBranch(_, children) => DirectiveNamesOfElementsAll(children);
    case For(_, children) => DirectiveNamesOfElementsAll(children);
    case Text(_) | Comment(_) | SimpleExpression(_, _) | Interpolation(_) | CompoundExpression(_) | TextCall(_) =>
  }

  lemma {:induction false} DirectiveNamesOfElementsAll(ns: seq<TNode>)
    ensures DirectiveNamesAll(ns) == DirectivesOf(ElementsAll(ns))
    decreases ns, 0
  {
    if |ns| != 0 {
      DirectiveNamesOfElements(ns[0]);
      DirectiveNamesOfElementsAll(ns[1..]);
      DirectivesOfConcat(Elements(ns[0]), ElementsAll(ns[1..]));
    }
  }

  /* ---------- getFreeVariablesForNode ---------- */

  /** The greedy `/^.*\s(?:in|of)\s/` of the `v-for` alias strip matches up to
      offset `i` + 4: no line terminator before `i`, then white space, `in` or
      `of`, white space. */
  predicate AliasAt(s: string, i: nat)
  {
    && i + 4 <= |s|
    && NoLineTerminator(s[..i])
    && IsSpace(s[i])
    && (s[i + 1..i + 3] == "in" || s[i + 1..i + 3] == "of")
    && IsSpace(s[i + 3])
  }

  /** The last alias match below `k`. */
  function LastAliasBelow(s: string, k: nat): (r: Option<nat>)
    requires k <= |s|
    ensures r.Some? ==> r.value < k && AliasAt(s, r.value)
    ensures r.Some? ==> forall j :: r.value < j < k ==> !AliasAt(s, j)
    ensures r.None? ==> forall j :: 0 <= j < k ==> !AliasAt(s, j)
  {
    if k == 0 then None
    else if AliasAt(s, k - 1) then Some(k - 1)
    else LastAliasBelow(s, k - 1)
  }

  /** `r` is what remains of `s` once the longest alias match is cut off. */
  predicate StrippedAt(s: string, r: string, i: nat)
  {
    AliasAt(s, i) && r == s[i + 4..] && forall j :: i < j < |s| ==> !AliasAt(s, j)
  }

  /** `content.replace(/^.*\s(?:in|of)\s/, '')`: the `v-for` source expression,
      after the last `in`/`of` surrounded by white space on the first line. */
  function StripAlias(s: string): (r: string)
    ensures (forall i :: 0 <= i < |s| ==> !AliasAt(s, i)) ==> r == s
    ensures (exists i :: 0 <= i < |s| && AliasAt(s, i)) ==> exists i :: 0 <= i < |s| && StrippedAt(s, r, i)
  {
    match LastAliasBelow(s, |s|)
    case None => s
    case Some(i) =>
      assert StrippedAt(s, s[i + 4..], i);
      s[i + 4..]
  }

  /** `input.trimStart()[0] === '{' ? `(${input})` : input`: an object literal is
      parenthesised so that Babel reads an expression and not a block. */
  function WithParens(input: string): (r: string)
    ensures var t := TrimStart(input); (|t| > 0 && t[0] == '{') ==> r == "(" + input + ")"
    ensures var t := TrimStart(input); !(|t| > 0 && t[0] == '{') ==> r == input
  {
    var t := TrimStart(input);
    if |t| > 0 && t[0] == '{' then "(" + input + ")" else input
  }

  /** `getFreeVariablesForText`: the names read by the statements Babel parses
      from the text, each once, in the order `getIdentifierUsages` adds them. */
  function ForText(tc: Toolchain, input: string): (r: seq<string>)
    ensures NoDuplicates(r)
    ensures forall x :: x in r <==> x in UsagesAll(tc.parse(WithParens(input), []))
  {
    Dedup(UsagesAll(tc.parse(WithParens(input), [])))
  }

  /** `refNode?.value?.content`: the value of the first `ref` attribute that has one. */
  function RefIdentifier(props: seq<Prop>): (r: Nullable<string>)
    ensures r != Null
    ensures r.Value? <==> exists i :: 0 <= i < |props| && props[i].Attribute? && props[i].attrName == "ref" && props[i].value.Some?
  {
    if |props| == 0 then Undefined
    else if props[0].Attribute? && props[0].attrName == "ref" && props[0].value.Some? then Value(props[0].value.value)
    else
      var r := RefIdentifier(props[1..]);
      assert forall i :: 1 <= i < |props| ==> props[i] == props[1..][i - 1];
      r
  }

  /** The identifiers of the first `v-for` directive: the text after its alias,
      when its expression is a simple expression. */
  function ForFreeVariables(tc: Toolchain, props: seq<Prop>): seq<string>
  {
    if |props| == 0 then []
    else if props[0].Directive? && props[0].dirName == "for" then
      match props[0].exp
      case Some(SimpleExpression(content, _)) => ForText(tc, StripAlias(content))
      case _ => []
    else ForFreeVariables(tc, props[1..])
  }

  /** `getFreeVariablesForNode`. Shadowing by `v-slot` and `v-for` is not
      implemented by the source (its shadowing sets are empty), so nothing is
      subtracted. */
  function FreeVariables(tc: Toolchain, n: TNode): seq<string>
    decreases n, 1
  {
    match n
    case SimpleExpression(content, isStatic) => if isStatic then [] else ForText(tc, content)
    case CompoundExpression(parts) => PartsFreeVariables(tc, parts)
    case Interpolation(e) => FreeVariables(tc, e)
    case Element(_, _, props, children) =>
      FilterNotNil(
        Present(SlotArgFreeVariables(tc, props)) + [RefIdentifier(props)] + Present(ForFreeVariables(tc, props))
        + Present(FreeVariablesAll(tc, children) + DirectivesFreeVariables(tc, props)))
    case For(source, children) => FreeVariables(tc, source) + FreeVariablesAll(tc, children)
    case If(branches) => FreeVariablesAll(tc, branches)
    case IfBranch(condition, children) => OptFreeVariables(tc, condition) + FreeVariablesAll(tc, children)
    case Text(_) | Comment(_) | TextCall(_) => []
  }

  function OptFreeVariables(tc: Toolchain, o: Option<TNode>): seq<string>
    decreases o, 2
  {
    match o
    case None => []
    case Some(x) => FreeVariables(tc, x)
  }

  function FreeVariablesAll(tc: Toolchain, ns: seq<TNode>): seq<string>
    decreases ns, 0
  {
    if |ns| == 0 then [] else FreeVariables(tc, ns[0]) + FreeVariablesAll(tc, ns[1..])
  }

  function PartFreeVariables(tc: Toolchain, p: CompoundPart): seq<string>
    decreases p, 2
  {
    match p
    case PartNode(x) => FreeVariables(tc, x)
    case PartText(_) => []
  }

  /** Only the object children of a compound expression are walked. */
  function PartsFreeVariables(tc: Toolchain, parts: seq<CompoundPart>): seq<string>
    decreases parts, 0
  {
    if |parts| == 0 then [] else PartFreeVariables(tc, parts[0]) + PartsFreeVariables(tc, parts[1..])
  }

  function ArgFreeVariables(tc: Toolchain, p: Prop): seq<string>
    decreases p, 2
  {
    match p
    case Directive(_, arg, _) => OptFreeVariables(tc, arg)
    case Attribute(_, _) => []
  }

  /** The argument of the first `v-slot` directive. */
  function SlotArgFreeVariables(tc: Toolchain, props: seq<Prop>): seq<string>
    decreases props, 0
  {
    if |props| == 0 then []
    else if props[0].Directive? && props[0].dirName == "slot" then ArgFreeVariables(tc, props[0])
    else SlotArgFreeVariables(tc, props[1..])
  }

  /** `getFreeVariablesForPropsNode` on a directive other than `v-slot` and `v-for`:
      its argument, then its expression. */
  function PropFreeVariables(tc: Toolchain, p: Prop): seq<string>
    decreases p, 2
  {
    match p
    case Directive(name, arg, exp) =>
      if name == "slot" || name == "for" then [] else OptFreeVariables(tc, arg) + OptFreeVariables(tc, exp)
    case Attribute(_, _) => []
  }

  function DirectivesFreeVariables(tc: Toolchain, props: seq<Prop>): seq<string>
    decreases props, 0
  {
    if |props| == 0 then [] else PropFreeVariables(tc, props[0]) + DirectivesFreeVariables(tc, props[1..])
  }

  function RefList(r: Nullable<string>): seq<string>
  {
    if r.Value? then [r.value] else []
  }

  /** An element's free identifiers: its first `v-slot` argument, its `ref` value,
      its `v-for` source, then its children's and its other directives'. */
  lemma ElementFreeVariables(tc: Toolchain, tag: string, tagType: ElementType, props: seq<Prop>, children: seq<TNode>)
    ensures FreeVariables(tc, Element(tag, tagType, props, children))
      == SlotArgFreeVariables(tc, props) + RefList(RefIdentifier(props)) + ForFreeVariables(tc, props)
         + FreeVariablesAll(tc, children) + DirectivesFreeVariables(tc, props)
  {
    var a, r, b, c := SlotArgFreeVariables(tc, props), RefIdentifier(props), ForFreeVariables(tc, props),
      FreeVariablesAll(tc, children) + DirectivesFreeVariables(tc, props);
    FilterNotNilConcat(Present(a) + [r] + Present(b), Present(c));
    FilterNotNilConcat(Present(a) + [r], Present(b));
    FilterNotNilConcat(Present(a), [r]);
    FilterNotNilPresent(a);
    FilterNotNilPresent(b);
    FilterNotNilPresent(c);
    assert FilterNotNil([r]) == RefList(r);
  }

  /** A `ref` attribute's value is a free identifier of its element. */
  lemma RefIsFree(tc: Toolchain, tag: string, tagType: ElementType, props: seq<Prop>, children: seq<TNode>, name: string)
    requires exists i :: FirstRefAt(props, i) && props[i].value == Some(name)
    ensures name in FreeVariables(tc, Element(tag, tagType, props, children))
  {
    ElementFreeVariables(tc, tag, tagType, props, children);
    var i :| FirstRefAt(props, i) && props[i].value == Some(name);
    FirstRef(props, i);
  }

  predicate IsRefWithValue(p: Prop)
  {
    p.Attribute? && p.attrName == "ref" && p.value.Some?
  }

  /** `props[i]` is the first `ref` attribute with a value. */
  predicate FirstRefAt(props: seq<Prop>, i: int)
  {
    0 <= i < |props| && IsRefWithValue(props[i]) && forall j :: 0 <= j < i ==> !IsRefWithValue(props[j])
  }

  lemma {:induction false} FirstRef(props: seq<Prop>, i: nat)
    requires FirstRefAt(props, i)
    ensures RefIdentifier(props) == Value(props[i].value.value)
  {
    if i > 0 {
      assert FirstRefAt(props[1..], i - 1) by {
        forall j | 0 <= j < i - 1 ensures !IsRefWithValue(props[1..][j]) { assert props[1..][j] == props[j + 1]; }
      }
      FirstRef(props[1..], i - 1);
    }
  }

  /** `v-slot` contributes its argument only; its expression declares the slot
      props and is not read. */
  lemma SlotContributesArgument(tc: Toolchain, tag: string, tagType: ElementType, arg: Option<TNode>, exp: Option<TNode>)
    ensures FreeVariables(tc, Element(tag, tagType, [Directive("slot", arg, exp)], [])) == OptFreeVariables(tc, arg)
  {
    var props := [Directive("slot", arg, exp)];
    ElementFreeVariables(tc, tag, tagType, props, []);
    assert props[1..] == [];
  }

  /** `v-for` contributes the identifiers of the text after its alias only. */
  lemma ForContributesSource(tc: Toolchain, tag: string, tagType: ElementType, arg: Option<TNode>, content: string, isStatic: bool)
    ensures FreeVariables(tc, Element(tag, tagType, [Directive("for", arg, Some(SimpleExpression(content, isStatic)))], []))
      == ForText(tc, StripAlias(content))
  {
    var d := Directive("for", arg, Some(SimpleExpression(content, isStatic)));
    ElementFreeVariables(tc, tag, tagType, [d], []);
    ForPropParts(tc, d);
    var x := ForText(tc, StripAlias(content));
    var none: seq<string> := [];
    assert FreeVariablesAll(tc, []) == none;
    assert none + none + x + none + none == x;
  }

  /** A lone `v-for` directive has no slot argument, no `ref` and nothing among
      the other directives; its source is the text after the alias. */
  lemma ForPropParts(tc: Toolchain, d: Prop)
    requires d.Directive? && d.dirName == "for" && d.exp.Some? && d.exp.value.SimpleExpression?
    ensures SlotArgFreeVariables(tc, [d]) == []
    ensures RefList(RefIdentifier([d])) == []
    ensures ForFreeVariables(tc, [d]) == ForText(tc, StripAlias(d.exp.value.content))
    ensures DirectivesFreeVariables(tc, [d]) == []
  {
    assert [d][1..] == [];
  }

  /** Any other directive contributes its argument, then its expression. */
  lemma DirectiveContributesArgumentAndExpression(tc: Toolchain, tag: string, tagType: ElementType, name: string,
                                                  arg: Option<TNode>, exp: Option<TNode>)
    requires name != "slot" && name != "for"
    ensures FreeVariables(tc, Element(tag, tagType, [Directive(name, arg, exp)], []))
      == OptFreeVariables(tc, arg) + OptFreeVariables(tc, exp)
  {
    var props := [Directive(name, arg, exp)];
    ElementFreeVariables(tc, tag, tagType, props, []);
    assert props[1..] == [];
  }

  /** No identifier of the children or of the other directives is dropped. */
  lemma NothingShadowed(tc: Toolchain, tag: string, tagType: ElementType, props: seq<Prop>, children: seq<TNode>)
    ensures forall x ::
              x in FreeVariablesAll(tc, children) + DirectivesFreeVariables(tc, props) ==>
                x in FreeVariables(tc, Element(tag, tagType, props, children))
  {
    ElementFreeVariables(tc, tag, tagType, props, children);
  }

  /* ---------- findReferencesForSFC ---------- */

  predicate IsRootTemplate(n: TNode)
  {
    n.Element? && n.tagType == ElementTag && n.tag == "template"
  }

  /** `roots[i]` is the first native-element `<template>` among the roots. */
  predicate FirstTemplateAt(roots: seq<TNode>, i: nat)
  {
    i < |roots| && IsRootTemplate(roots[i]) && forall j :: 0 <= j < i ==> !IsRootTemplate(roots[j])
  }

  function FirstTemplate(roots: seq<TNode>): (r: Option<TNode>)
    ensures r.Some? ==> IsRootTemplate(r.value)
    ensures r.None? <==> forall i :: 0 <= i < |roots| ==> !IsRootTemplate(roots[i])
    ensures forall i: nat :: FirstTemplateAt(roots, i) ==> r == Some(roots[i])
  {
    if |roots| == 0 then None
    else if IsRootTemplate(roots[0]) then Some(roots[0])
    else
      var r := FirstTemplate(roots[1..]);
      assert forall i :: 1 <= i < |roots| ==> roots[i] == roots[1..][i - 1];
      assert forall i: nat :: FirstTemplateAt(roots, i) ==> i > 0 && FirstTemplateAt(roots[1..], i - 1);
      r
  }

  datatype References = References(components: seq<string>, directives: seq<string>, identifiers: seq<string>)

  /** `findReferencesForSFC`: the walkers run over the children of the first
      top-level `<template>` element; without one, every list is empty. */
  function FindReferences(tc: Toolchain, code: string): References
  {
    match FirstTemplate(tc.parseTemplate(code))
    case None => References([], [], [])
    case Some(t) => References(ComponentsAll(t.children), DirectiveNamesAll(t.children), FreeVariablesAll(tc, t.children))
  }

  /** Only the first top-level `<template>` element is analysed. */
  lemma OnlyFirstTemplate(tc: Toolchain, code: string, i: nat)
    requires FirstTemplateAt(tc.parseTemplate(code), i)
    ensures var t := tc.parseTemplate(code)[i];
      FindReferences(tc, code) == References(ComponentsAll(t.children), DirectiveNamesAll(t.children), FreeVariablesAll(tc, t.children))
  {
    assert FirstTemplate(tc.parseTemplate(code)) == Some(tc.parseTemplate(code)[i]);
  }

  /** Without a top-level `<template>` element nothing is referenced. */
  lemma NoTemplateNoReferences(tc: Toolchain, code: string)
    requires forall i :: 0 <= i < |tc.parseTemplate(code)| ==> !IsRootTemplate(tc.parseTemplate(code)[i])
    ensures FindReferences(tc, code) == References([], [], [])
  {
    assert FirstTemplate(tc.parseTemplate(code)).None?;
  }
}
