/**
 * The part of `@vue/compiler-core`'s template AST that the reference walkers
 * look at. `baseParse` itself is not part of this model; its output is taken
 * as a value of these types.
 */
module TemplateAst {
  import opened Js

  /** `ElementTypes`: a native element, a component, `<slot>` or `<template>`. */
  datatype ElementType = ElementTag | ComponentTag | SlotTag | TemplateTag

  /** The node kinds a template child or a directive expression can be. */
  datatype TNode =
    | Element(tag: string, tagType: ElementType, props: seq<Prop>, children: seq<TNode>)
    | Text(content: string)
    | Comment(content: string)
    | SimpleExpression(content: string, isStatic: bool)
    | Interpolation(interpolated: TNode)
    | CompoundExpression(parts: seq<CompoundPart>)
    | If(branches: seq<TNode>)
    | IfBranch(condition: Option<TNode>, children: seq<TNode>)
    | For(source: TNode, children: seq<TNode>)
    | TextCall(called: TNode)

  /** A child of a compound expression: a node, or a plain string or symbol. */
  datatype CompoundPart = PartNode(node: TNode) | PartText(text: string)

  /** An attribute `name="value"` (the value is absent for a bare attribute), or
      a directive `v-name:arg="exp"`. */
  datatype Prop =
    | Attribute(attrName: string, value: Option<string>)
    | Directive(dirName: string, arg: Option<TNode>, exp: Option<TNode>)
}
