/**
 * The third-party parsers and printers the transform calls, as values of a
 * `Toolchain` passed in: htmlparser2's tokenizer (in XML mode, tags and
 * attribute names kept as written, self-closing tags recognised), Babel's
 * `parse` and scope analysis, `@vue/compiler-core`'s `baseParse`, pug, Babel's
 * generator and the `@vue/shared` tag tables. None of them is modelled; every
 * property proved here holds whatever they return.
 */
module Parsers {
  import opened Js
  import opened BabelAst
  import opened TemplateAst

  /** An htmlparser2 callback with the parser's `startIndex`/`endIndex` at that
      moment: for a tag, the offsets of its `<` and of its `>`. */
  datatype TagEvent =
    | OpenTag(name: string, attrs: Record, startIndex: nat, endIndex: nat)
    | TextChunk(text: string)
    | CloseTag(name: string, startIndex: nat, endIndex: nat)

  datatype Toolchain = Toolchain(
    /** htmlparser2 run over a whole text. */
    tokenize: string -> seq<TagEvent>,
    /** `@babel/parser` `parse(text, { plugins }).program.body`. */
    parse: (string, seq<string>) -> seq<Node>,
    /** `baseParse(text, parserOptions).children`. */
    parseTemplate: string -> seq<TNode>,
    /** `pug.compile(text)()`. */
    compilePug: string -> string,
    /** `getIdentifierDeclarations`: the program-scope bindings of a statement list. */
    declarations: seq<Node> -> seq<string>,
    /** The name of every `Identifier` node Babel's traversal visits in a program. */
    identifierNames: seq<Node> -> seq<string>,
    /** `@babel/generator`'s code for a program. */
    generate: seq<Node> -> string,
    isHtmlTag: string -> bool,
    isSvgTag: string -> bool,
    isVoidTag: string -> bool
  )
}
