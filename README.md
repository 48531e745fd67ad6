# unplugin-vue2-script-setup, modelled in Dafny

unplugin-vue2-script-setup lets Vue 2 single-file components (SFCs) use
`<script setup>`. Its `transform(input, id, options)` has four stages:

1. `parseSFC` finds the `<script setup>` block, the `<script>` block and the
   first top-level `<template>`. Before it tokenises, it blanks comments.
   It then checks that both blocks use the same language and picks the Babel
   plugins.
2. The template walkers collect the components, custom directives and free
   identifiers that the template uses.
3. `transformScriptSetup` runs the compiler macros `defineProps`,
   `defineEmits`, `defineExpose` and `withDefaults`. It hoists imports, exports
   and type declarations. It wraps the other statements in a `setup` function
   attached to `__sfc_main` and returns the bindings the template uses.
4. `transform` merges the two blocks' attributes. With MagicString it removes
   the `<script>` block and writes the new block where `<script setup>` was,
   or in front of the file when there was none.

The model also covers the older pipeline kept in `src/parse.ts`,
`src/macros.ts` and `src/transformScriptSetup.ts`, plus the option defaulting
and the string helpers.

The third-party parsers are values of a `Toolchain` datatype passed in:

- htmlparser2's tokenizer;
- Babel's parser, scope analysis and generator;
- `@vue/compiler-core`'s `baseParse`;
- pug;
- the `@vue/shared` tag tables.

Every property holds whatever these return. Each stateful pass is a method
(a loop over tag events, over statements, over declarators, or a class over
the MagicString buffer). Each method is proved equal to a specification
function. The lemmas state what the source promises about those functions.

Modules, in dependency order:

- `Js`: JavaScript built-ins (slice, `trimStart`, regex searches, objects, `Set`)
- `Errors`: the thrown messages
- `Utils`: camelize, capitalize, pascalize, `isNotNil`
- `Options`
- `BabelAst`, `TemplateAst`: the node types
- `Parsers`: the `Toolchain`
- `Identifiers`
- `Comments`: comment blanking
- `TemplateRefs`: the template walkers
- `Sfc`: the block records and the language choice
- `ParseSfc`
- `LegacyParse`: `parseVueSFC`
- `RuntimeProps`: runtime props from a `defineProps<T>()` type
- `Macros`, `LegacyMacros`
- `SetupPartition`, `SetupBindings`, `SfcMain`
- `TransformScriptSetup`, `LegacyTransformScriptSetup`
- `MagicStrings`
- `TransformAttributes`
- `Splice`
- `Transform`

## Model

| member | source | states |
|---|---|---|
| Js.Slice | src/core/parseSFC.ts:347-350 | `code.slice(a, b)` is the substring for an in-range pair, empty for a reversed pair, and never longer than the text |
| Js.ToUpper | src/core/utils.ts:3 | for ASCII, upper-casing maps a lower-case letter to an upper-case one and leaves every other character alone |
| Js.TrimStart | src/core/parseSFC.ts:144 | `trimStart` returns a suffix that starts with a non-space, and everything it drops is white space |
| Js.Spaces | src/core/parseSFC.ts:279-280 | `' '.repeat(n)` has length n and only spaces |
| Js.FindPair | src/core/parseSFC.ts:63 | a lazy regex search stops at the first occurrence of the closing pair, unless a character the pattern cannot cross comes first; no match means every later pair is behind such a character |
| Js.FindPairReaches | src/core/parseSFC.ts:63 | a search that meets no barrier and no earlier pair finds the pair at k |
| Js.Get | src/core/parseSFC.ts:370 | reading a property finds a value exactly when the key is present, and the value stored under it |
| Js.Put | src/core/transform.ts:11-14 | writing a property keeps the position of an existing key, appends a new key last, and keeps keys unique |
| Js.Delete | src/core/transform.ts:15 | `delete r[k]` removes exactly the entries with key k and keeps the others |
| Js.GetPut | src/core/transform.ts:11-14 | after `r[k] = v`, reading k gives v and reading any other key is unchanged |
| Js.Add | src/core/identifiers.ts:50 | `set.add(x)` appends x only when it is new, keeps insertion order and keeps the set free of duplicates |
| Js.AddAllSpec | src/core/parseSFC.ts:143-148 | adding a list to a Set only grows it, keeps its order, gains exactly the list's elements and stays duplicate-free |
| Js.Dedup | src/core/transformScriptSetup.ts:43-47 | `uniq(xs)` holds exactly the elements of xs, each once |
| Utils.Camelize | src/core/utils.ts:3 | camelize never lengthens a string |
| Utils.Capitalize | src/core/utils.ts:3 | for ASCII, capitalize upper-cases the first character and keeps the rest and the length |
| Utils.Pascalize | src/core/utils.ts:3 | for ASCII, pascalize never lengthens a string |
| Utils.FilterNotNil | src/core/parseSFC.ts:206-211 | `filter(isNotNil)` never lengthens a list |
| Utils.IsNotNilExactly | src/core/utils.ts:5 | `isNotNil(v)` is false exactly for `null` and `undefined` |
| Utils.FilterNotNilMembers | src/core/parseSFC.ts:206-211 | the filter keeps exactly the present values |
| Utils.FilterNotNilConcat | src/core/parseSFC.ts:206-211 | the filter distributes over concatenation, so kept values stay in order |
| Utils.FilterNotNilPresent | src/core/parseSFC.ts:226-227 | a list of present values passes the filter unchanged |
| Utils.CamelizeWithoutHyphen | src/core/utils.ts:3 | camelize leaves a string without hyphens unchanged |
| Utils.PascalizeFixedPoint | src/core/transformScriptSetup.ts:57-63 | for ASCII, a hyphen-free name that does not start with a lower-case letter is its own pascal case |
| Utils.CamelizeStyle | src/core/parseSFC.ts:415 | `-style` camelizes to `Style` |
| Utils.CamelizeOneHyphen | src/core/utils.ts:3 | a hyphen before a word character, between hyphen-free words, is dropped and that character upper-cased |
| Utils.PascalizeOneHyphen | src/core/parseSFC.ts:414 | a one-hyphen kebab-case tag such as `dynamic-style` pascalizes to its capitalised words joined, `DynamicStyle` |
| Utils.CamelizePrefix | src/core/utils.ts:3 | camelize copies a hyphen-free prefix through unchanged |
| Options.Defaults | src/core/options.ts:6-11 | the defaults set exactly `sourceMap`, `reactivityTransform`, `importHelpersFrom` and `astTransforms` |
| Options.ResolveOptions | src/core/options.ts:3-14 | the resolved keys are the defaults' plus the caller's; the caller's values win; every other key takes its default |
| Options.NoArgumentIsEmptyObject | src/core/options.ts:3 | a missing argument resolves like `{}`, to the defaults |
| Options.CallerWins | src/core/options.ts:4-13 | a supplied option wins even when explicitly `undefined`; a missing one takes its default; no key is lost |
| Options.ResolveIdempotent | src/core/options.ts:3-14 | resolving resolved options changes nothing |
| BabelAst.Argument | src/core/macros.ts:67 | `node.arguments[i]` exists exactly when i is below the argument count |
| BabelAst.ShorthandObject | src/core/transformScriptSetup.ts:50-55 | the returned object has one shorthand property per name, in order |
| Identifiers.GetIdentifierUsages | src/core/identifiers.ts:39-108 | the Set after the walk is the given Set with the node's usages added in walk order; it keeps its prefix and gains exactly those names |
| Identifiers.Collect | src/core/identifiers.ts:43-103 | the recursive walk of one node adds exactly that node's usages, in order |
| Identifiers.CollectOperation | src/core/identifiers.ts:52-75 | member, call, binary, unary, for-in/of and conditional nodes add the usages of the parts the source walks, in order |
| Identifiers.CollectProperties | src/core/identifiers.ts:76-87 | an object literal adds its properties' usages in order |
| Identifiers.CollectProperty | src/core/identifiers.ts:78-85 | a property adds its computed key and its value; a spread adds its argument |
| Identifiers.CollectElements | src/core/identifiers.ts:88-90 | an array literal adds its elements' usages in order, skipping holes |
| Identifiers.CollectAll | src/core/identifiers.ts:43-45 | a statement list adds its statements' usages in order |
| Identifiers.UsagesAreNames | src/core/identifiers.ts:39-108 | every reported usage is the name of some identifier in the node |
| Identifiers.OperationUsagesAreNames | src/core/identifiers.ts:52-75 | the same, for the operation nodes |
| Identifiers.UsagesOfAreNames | src/core/identifiers.ts:40-41 | the same, for an optional node; a missing node reports nothing |
| Identifiers.MemberUsagesAreNames | src/core/identifiers.ts:77-86 | the same, for an object member |
| Identifiers.UsagesAllAreNames | src/core/identifiers.ts:43-45 | the same, for a statement list |
| Identifiers.UsagesOfAllAreNames | src/core/identifiers.ts:88-90 | the same, for array elements |
| Identifiers.MemberUsagesAllAreNames | src/core/identifiers.ts:76-87 | the same, for object members |
| Identifiers.MemberPropertyNotRead | src/core/identifiers.ts:52-56 | `foo.bar` reads `foo` only |
| Identifiers.NewOfMemberReadsObject | src/core/identifiers.ts:94-97 | `new RC.Foo()` reads `RC` only |
| Identifiers.ObjectLiteralReads | src/core/identifiers.ts:76-87 | `({ a, b, ...args, [c]: 1, d: e, f: { g } })` reads a, b, args, c, e, g, in that order |
| Identifiers.ForOfReadsSource | src/core/identifiers.ts:68-70 | `for (let [x, idx] of foo) {}` reads `foo` only |
| Identifiers.FunctionReadsBodyOnly | src/core/identifiers.ts:98-100 | `function foobar(x) { return foo() + bar }` reads foo and bar, not its name or its parameter |
| Comments.BlockFrom | src/core/parseSFC.ts:279 | blanking block comments keeps the length of the text |
| Comments.LineEnd | src/core/parseSFC.ts:64 | `.*` stops at the first line terminator or at the end of the text |
| Comments.LineFrom | src/core/parseSFC.ts:280 | blanking line comments keeps the length of the text |
| Comments.StripComments | src/core/parseSFC.ts:278-280 | the text the tokenizer reads equals the input except that some characters became spaces, so every offset still points into the original |
| Comments.BlockFromBlanked | src/core/parseSFC.ts:279 | the block-comment pass only turns characters into spaces |
| Comments.LineFromBlanked | src/core/parseSFC.ts:280 | the line-comment pass only turns characters into spaces |
| Comments.NoOpenerUnchanged | src/core/parseSFC.ts:278-280 | text without a `/*` or `//` followed by white space is left unchanged |
| Comments.BlockFromNoOpener | src/core/parseSFC.ts:279 | without a block-comment opener the block pass is the identity |
| Comments.LineFromNoOpener | src/core/parseSFC.ts:280 | without a line-comment opener the line pass is the identity |
| Comments.BlockCommentBlanked | src/core/parseSFC.ts:63 | a whole `/* ... */` comment becomes spaces of its own length |
| Comments.LineCommentBlanked | src/core/parseSFC.ts:64 | a `// ` comment is blanked up to its line break, which is kept |
| Comments.LineEndReaches | src/core/parseSFC.ts:64 | the line ends at the first line terminator |
| TemplateRefs.ComponentsAreElementTags | src/core/parseSFC.ts:88-112 | `getComponents` returns the tags of the native-element and component elements, in document order |
| TemplateRefs.ComponentsAreElementTagsAll | src/core/parseSFC.ts:111 | the same, for a list of nodes |
| TemplateRefs.DirectiveNamesOfElements | src/core/parseSFC.ts:114-140 | `getDirectiveNames` lists each visited element's directive names before its children's |
| TemplateRefs.DirectiveNamesOfElementsAll | src/core/parseSFC.ts:119 | the same, for a list of nodes |
| TemplateRefs.LastAliasBelow | src/core/parseSFC.ts:197 | finds the last position below k where the `v-for` alias pattern matches, or reports that none does |
| TemplateRefs.StripAlias | src/core/parseSFC.ts:197 | without an alias match the text is unchanged; otherwise it is cut after the longest match |
| TemplateRefs.WithParens | src/core/parseSFC.ts:144 | text whose trimmed start is `{` is parenthesised; any other text is kept |
| TemplateRefs.ForText | src/core/parseSFC.ts:142-149 | `getFreeVariablesForText` returns each name read by the parsed statements exactly once |
| TemplateRefs.RefIdentifier | src/core/parseSFC.ts:188-189 | the `ref` value is present exactly when some `ref` attribute has a value, and is never `null` |
| TemplateRefs.ElementFreeVariables | src/core/parseSFC.ts:176-212 | an element contributes, in order, its `v-slot` argument, its `ref`, its `v-for` source, its children and its other directives |
| TemplateRefs.RefIsFree | src/core/parseSFC.ts:188-211 | the first valued `ref` attribute's value is a free identifier of its element |
| TemplateRefs.FirstRef | src/core/parseSFC.ts:188-189 | `find` returns the first valued `ref` attribute |
| TemplateRefs.SlotContributesArgument | src/core/parseSFC.ts:191-194 | `v-slot` contributes its argument only |
| TemplateRefs.ForContributesSource | src/core/parseSFC.ts:196-197 | `v-for` contributes the identifiers of the text after its alias only |
| TemplateRefs.DirectiveContributesArgumentAndExpression | src/core/parseSFC.ts:151-160 | any other directive contributes its argument, then its expression |
| TemplateRefs.NothingShadowed | src/core/parseSFC.ts:205-210 | the empty shadowing sets drop no identifier of the children or directives |
| TemplateRefs.FirstTemplate | src/core/parseSFC.ts:247-249 | `find` returns the first top-level native `<template>` element, and none only when there is none |
| TemplateRefs.OnlyFirstTemplate | src/core/parseSFC.ts:239-261 | the three walkers run over the children of the first top-level `<template>` only |
| TemplateRefs.NoTemplateNoReferences | src/core/parseSFC.ts:251-254 | without a top-level `<template>`, every list is empty |
| Sfc.OpenScript | src/core/parseSFC.ts:321-334 | an open tag records start, content start, attributes and found; it keeps end and content |
| Sfc.CloseScript | src/core/parseSFC.ts:344-358 | a close tag records end and content end; the content is the original text between the tags |
| Sfc.Or | src/core/parseSFC.ts:382 | `a \|\| b` keeps a non-empty a and otherwise gives b |
| Sfc.PluginsFor | src/core/parseSFC.ts:383-387 | `ts`, `jsx`, `tsx` and `js` give their plugins, TypeScript exactly for ts/tsx and JSX exactly for jsx/tsx; any other language is refused with its name |
| Sfc.ScriptLanguage | src/core/parseSFC.ts:367-387 | the language mismatch error comes exactly when both blocks were found with different `lang` attributes |
| Sfc.LegacyScriptLanguage | src/transformScriptSetup.ts:9-21 | the same mismatch condition for the older transform |
| Sfc.EffectiveLanguage | src/core/parseSFC.ts:382-387 | when the languages agree, the plugins are those of the setup block's `lang`, else the plain block's, else `js` |
| Sfc.NoLangAttribute | src/transformScriptSetup.ts:12-21 | without any `lang`, the core parser reads plain JavaScript while the older transform refuses `undefined` |
| ParseSfc.ScanTags | src/core/parseSFC.ts:306-365 | the tokenizer callbacks, looped over the events, give the fold of the per-event step |
| ParseSfc.ScanConsistent | src/core/parseSFC.ts:306-359 | after any run, an open block is found, an unfound block keeps its initial record, a closed block's content is the original text between its tags, and a template end implies a template start |
| ParseSfc.StepConsistent | src/core/parseSFC.ts:308-359 | each callback preserves that invariant |
| ParseSfc.LevelIsDepth | src/core/parseSFC.ts:311-342 | `templateLevel` counts opened minus closed `<template>` tags |
| ParseSfc.PugOnlyFromOutermost | src/core/parseSFC.ts:311-316 | the template is pug exactly when some outermost `<template>` has `lang="pug"` |
| ParseSfc.TemplateBounds | src/core/parseSFC.ts:311-342 | the template start and end are recorded only at an outermost `<template>` open and close tag |
| ParseSfc.OtherEventsKeepScripts | src/core/parseSFC.ts:320-358 | events that are not script tags leave both script records and flags unchanged |
| ParseSfc.SetupRegion | src/core/parseSFC.ts:321-352 | an open `<script setup>` tag and the next close `</script>` determine the whole setup record |
| ParseSfc.ScriptRegion | src/core/parseSFC.ts:328-358 | the same for a plain `<script>` |
| ParseSfc.SetupNeverOpened | src/core/parseSFC.ts:282-291 | without a `<script setup>` tag the setup record keeps its initial value |
| ParseSfc.TemplateCode | src/core/parseSFC.ts:396-407 | there is template code exactly when both template bounds were recorded |
| ParseSfc.PascalizeAll | src/core/parseSFC.ts:414 | each component name is pascalized, in order |
| ParseSfc.CustomDirectives | src/core/parseSFC.ts:415 | exactly the camelized names of the non-built-in directives are kept |
| ParseSfc.TemplateInfoOf | src/core/parseSFC.ts:409-417 | components, directives and identifiers are sets without duplicates, and all are empty without template code |
| ParseSfc.ParseSfcSpec | src/core/parseSFC.ts:269-423 | with parsers that do not throw, parsing fails exactly when the language check fails, with its error; otherwise it returns the scanned blocks, the chosen plugins and no extra declarations |
| ParseSfc.ParseSfc | src/core/parseSFC.ts:269-423 | the imperative `parseSFC` returns what `ParseSfcSpec` specifies |
| LegacyParse.GetIdentifiersUsage | src/parse.ts:149-192 | the older walker adds the node's usages to the Set, in order |
| LegacyParse.UsagesOfNode | src/parse.ts:153-187 | the walk of one present node adds its usages |
| LegacyParse.UsagesOfEach | src/parse.ts:165-168 | call arguments are walked in order |
| LegacyParse.UsagesOfPropertyValues | src/parse.ts:182-187 | the values of object properties are walked in order |
| LegacyParse.UsagesOfPropertyValue | src/parse.ts:185 | only a property's value is walked; a spread or method has none |
| LegacyParse.LegacyUsagesAreUsages | src/parse.ts:149-192 | every name the older walker reports, the current walker reports too |
| LegacyParse.LegacyUsagesAllAreUsages | src/parse.ts:112 | the same, for a statement list |
| LegacyParse.PropertyValueUsagesAreUsages | src/parse.ts:182-187 | the same, for one object property |
| LegacyParse.PropertyValueUsagesAllAreUsages | src/parse.ts:183-186 | the same, for object properties |
| LegacyParse.UnaryNotWalked | src/parse.ts:149-192 | the converse fails: `!a` reads `a` for the current walker only |
| LegacyParse.GetIdentifiersDeclaration | src/parse.ts:126-147 | the loop adds the declared names of each statement, in order |
| LegacyParse.AddDeclared | src/parse.ts:127-145 | one statement adds its import locals, declarator names or function name |
| LegacyParse.AddSpecifiers | src/parse.ts:129-130 | each import specifier's local name is added |
| LegacyParse.AddDeclarators | src/parse.ts:133-136 | each declarator's `id.name` is added, `undefined` for a pattern |
| LegacyParse.DeclaredNamesExactly | src/parse.ts:126-147 | a name is reported exactly when some statement declares it |
| LegacyParse.DeclaredOneExactly | src/parse.ts:128-141 | the same, for one statement |
| LegacyParse.DeclaratorNamesExactly | src/parse.ts:133-136 | a name is reported exactly when some declarator's id is that identifier |
| LegacyParse.FirstAliasFrom | src/parse.ts:49 | finds the first position of the alias pattern from i, or reports that none exists |
| LegacyParse.StripAliasAsWritten | src/parse.ts:49 | the regex as written cuts the text after its first `\w(in\|of)\w` match, or keeps the text when there is none |
| LegacyParse.AliasRegexCutsIdentifier | src/parse.ts:49 | as written, `point in points` becomes ` in points` |
| LegacyParse.StripAlias | src/parse.ts:48-49 | the intended strip cuts after the first white-space-delimited `in`/`of` |
| LegacyParse.StripAliasLeavesSource | src/parse.ts:48-49 | `alias in source` and `alias of source` leave `source` |
| LegacyParse.MustacheMatches | src/parse.ts:78 | every `{{ ... }}` capture lies on one line |
| LegacyParse.NoMustacheNoMatches | src/parse.ts:78 | text without `{{` yields no expression |
| LegacyParse.MustacheMatchesOne | src/parse.ts:78-80 | `{{e}}` yields e, and scanning resumes after the closing braces |
| LegacyParse.Parenthesized | src/parse.ts:79 | each expression is wrapped in parentheses |
| LegacyParse.AddAttributes | src/parse.ts:43-55 | the attribute loop adds each binding's expression and each `ref` value, in order, with the `v-for` regex as written |
| LegacyParse.AttrExpression | src/parse.ts:43-52 | an attribute queues one expression exactly when it is a non-empty binding: its value in parentheses, a `v-for` value first passed through the regex as written |
| LegacyParse.SpacedAliasQueuedWhole | src/parse.ts:47-49 | `v-for="item in items"` is queued whole, as `(item in items)`, since the regex needs word characters around `in` |
| LegacyParse.AddMustaches | src/parse.ts:76-81 | the text callback adds each parenthesised mustache expression |
| LegacyParse.OnOpenTag | src/parse.ts:36-75 | the open-tag callback performs one step of the scanner's fold, with the `v-for` regex as written |
| LegacyParse.ScanTags | src/parse.ts:35-108 | the callbacks, looped over the events, give the fold, with the `v-for` regex as written |
| LegacyParse.AddExpressionUsages | src/parse.ts:110-113 | each collected expression is parsed and its usages added |
| LegacyParse.ParseVueSfc | src/parse.ts:7-124 | the imperative `parseVueSFC` returns what `ParseVueSfcSpec` gives: the scanned components and script blocks, and the template identifiers from `ref` values and from the queued expressions |
| LegacyParse.LevelIsDepth | src/parse.ts:37-85 | the template level counts opened minus closed `<template>` tags |
| LegacyParse.StepAgrees | src/parse.ts:36-99 | a callback outside templates changes the script records as the current scanner's does |
| LegacyParse.ScriptsAgree | src/parse.ts:57-99 | when no script tag sits inside a template, both scanners find the same blocks |
| LegacyParse.ScriptInTemplateIgnored | src/parse.ts:40-74 | a `<script>` inside a template is not a block for the older scanner |
| LegacyParse.StepComponents | src/parse.ts:40-42 | one callback adds a component only for a non-native open tag inside a template, pascal-cased |
| LegacyParse.ComponentsFromCustomTags | src/parse.ts:40-42 | the components are exactly the pascal-cased names of non-native tags opened inside a template |
| LegacyParse.UsageOfMember | src/parse.ts:159-161 | `foo.bar` reads `foo` |
| LegacyParse.UsageOfCall | src/parse.ts:162-169 | `foo(bar, console.log)` reads foo, bar and console |
| LegacyParse.DeclarationCases | src/parse.ts:132-141 | `var a = 1` declares a and `function b() {}` declares b |
| RuntimeProps.InferRuntimeType | src/core/macros.ts:346-426 | the inferred constructors are known runtime names without duplicates; only a union or parenthesised type may give other than one |
| RuntimeProps.InferConcat | src/core/macros.ts:412-419 | a union's concatenated constructors are known runtime names |
| RuntimeProps.UnionConstructors | src/core/macros.ts:412-419 | a union allows exactly the constructors one of its members allows |
| RuntimeProps.ConcatConstructors | src/core/macros.ts:415-417 | the concatenation holds exactly the members' constructors |
| RuntimeProps.Collapse | src/core/macros.ts:340 | no type gives `null`, one constructor gives it alone, otherwise the list |
| RuntimeProps.ExtractRuntimeProps | src/core/macros.ts:316-344 | the member loop writes each declaring member into `props`, in order |
| RuntimeProps.ExtractLastWins | src/core/macros.ts:337-341 | a prop declared twice is described by its last declaration; undeclared keys keep their old value |
| RuntimeProps.ExtractUniqueKeys | src/core/macros.ts:337 | each prop key appears once |
| RuntimeProps.FindDefault | src/core/macros.ts:228 | `find` returns a property keyed by that identifier, or none when there is none |
| RuntimeProps.GenRuntimeProps | src/core/macros.ts:208-248 | no props give `undefined`; otherwise one property per prop, in order, keyed by its name |
| RuntimeProps.DefaultMakesOptional | src/core/macros.ts:227-240 | a prop with a static default gets `required: false` and a `default` entry |
| RuntimeProps.PropDataFields | src/core/macros.ts:321-343 | a property or method signature with an identifier key declares a prop keyed by its name, required exactly when not optional, typed `Function` for a method and `null` without annotation |
| RuntimeProps.GenRuntimePropsEntries | src/core/macros.ts:222-247 | the i-th property of the generated object is the i-th prop's entry |
| RuntimeProps.UncheckedPropIsNull | src/core/macros.ts:224-225 | a prop of type `null` is declared as `key: null` |
| RuntimeProps.CheckedPropEntries | src/core/macros.ts:227-245 | any other prop is `{ key, required, type }`, plus `default` exactly when a static default exists; required exactly when declared required and without a default |
| RuntimeProps.TypeExpressionNames | src/core/macros.ts:234-235 | `type` is one identifier, or an array naming each constructor in order |
| Macros.QualifiedIn | src/core/macros.ts:167-183 | a resolved type alias satisfies the qualifier |
| Macros.FirstQualified | src/core/macros.ts:185-189 | the search returns the first statement's match, or none when no statement matches |
| Macros.ResolveQualifiedType | src/core/macros.ts:155-191 | a qualifying type is itself; a resolved type node qualifies; a non-reference that does not qualify resolves to nothing |
| Macros.ProcessDefineProps | src/core/macros.ts:58-95 | non-calls pass untouched, a second call is refused, a handled call sets the flag, and a runtime declaration excludes a new type declaration |
| Macros.ProcessWithDefaults | src/core/macros.ts:97-118 | the first argument must be a `defineProps` call; on success there is no runtime declaration and the defaults are the second argument |
| Macros.ProcessDefineEmits | src/core/macros.ts:120-153 | non-calls pass untouched, a second call is refused, and a handled call changes only the emits state |
| Macros.ProcessDefineExpose | src/core/macros.ts:193-206 | a second call or a wrong argument count is refused; otherwise the argument is recorded |
| Macros.ProcessDeclarations | src/core/macros.ts:271-284 | the declarator loop equals its fold, stopping at the first error |
| Macros.FailurePersists | src/core/macros.ts:272-283 | a failing declarator makes the whole declaration fail with its error |
| Macros.StatementFailurePersists | src/core/macros.ts:265-293 | a failing statement makes the whole body fail with its error |
| Macros.ProcessOne | src/core/macros.ts:266-292 | the callback for one statement equals its specification |
| Macros.ApplyMacros | src/core/macros.ts:29-300 | the imperative `applyMacros` returns what `ApplyMacrosSpec` gives, error included |
| Macros.ApplyKeepsInvariant | src/core/macros.ts:58-153 | after every statement, each macro's recorded declarations are consistent with its flag |
| Macros.PropsSource | src/core/macros.ts:250-258 | a runtime declaration is returned as the props and excludes a type declaration; with neither there are no props |
| Macros.DeclaratorsRefuseAwait | src/core/macros.ts:275-282 | a declaration that passes has no `await` initialiser |
| Macros.NoTopLevelAwait | src/core/macros.ts:260-263 | a body that passes has no top-level `await` |
| Macros.MacroStatementsRemoved | src/core/macros.ts:286-287 | no bare macro call statement survives |
| Macros.PlainDeclarators | src/core/macros.ts:271-284 | declarators without macros or `await` pass unchanged |
| Macros.PlainBodyUnchanged | src/core/macros.ts:265-293 | a body without macros or `await` passes unchanged, with no props and no expose |
| Macros.RuntimePropsDeclaration | src/core/macros.ts:278-279 | `const props = defineProps(decl)` becomes `const props = __props` with props `decl` |
| Macros.DuplicateDefineProps | src/core/macros.ts:62-63 | a second `defineProps()` is refused with the duplicate-call error |
| LegacyMacros.ProcessDefineExpose | src/macros.ts:193-197 | the older handler refuses exactly `defineExpose` calls |
| LegacyMacros.ProcessInit | src/macros.ts:258-263 | an initialiser never raises the expose error |
| LegacyMacros.ProcessDeclarators | src/macros.ts:254-265 | declarators never raise the expose error |
| LegacyMacros.BareMacroStatementsIgnored | src/macros.ts:267-270 | as written, a `defineExpose(x);` or `defineProps(x);` statement is kept and declares nothing |
| LegacyMacros.ExposeNeverRefusedAsWritten | src/macros.ts:267-268 | as written, no Babel statement list is ever refused for `defineExpose` |
| LegacyMacros.BareExposeRefused | src/macros.ts:267-268 | corrected half: with the test on the statement's expression, `defineExpose(x);` is refused |
| LegacyMacros.MacroStatementsRemoved | src/macros.ts:267-268 | corrected half: with the test on the statement's expression, a body that passes keeps no bare macro statement and holds no `defineExpose` |
| LegacyMacros.PropsAreRuntimeOnly | src/macros.ts:274-277 | as written, the returned props are the runtime declaration, and a type-based `defineProps` yields none |
| LegacyMacros.TypedPropsGiveNoProps | src/macros.ts:252-277 | as written, `const p = defineProps<{...}>()` becomes `const p = __props` and the props are `undefined` |
| LegacyMacros.LegacyKeepsInvariant | src/macros.ts:252-272 | as written, the handler-state invariant holds after every statement |
| LegacyMacros.ProcessDeclarations | src/macros.ts:254-265 | the declarator loop equals its fold |
| LegacyMacros.FailurePersists | src/macros.ts:255-264 | a failing declarator fails the declaration |
| LegacyMacros.StatementFailurePersists | src/macros.ts:252-272 | as written, a failing statement fails the body |
| LegacyMacros.ProcessOne | src/macros.ts:253-271 | the callback for one statement, testing the raw statement for a macro call, equals `StatementAsWritten` |
| LegacyMacros.ApplyMacros | src/macros.ts:32-278 | the older `applyMacros` returns what `ApplyMacrosAsWritten` gives, errors included |
| SetupPartition.Hoisted | src/core/transformScriptSetup.ts:33-40 | the first side holds only async imports, imports, named exports and TypeScript statements |
| SetupPartition.SetupStatements | src/core/transformScriptSetup.ts:33-40 | the second side holds only the other statements |
| SetupPartition.PartitionIsPermutation | src/core/transformScriptSetup.ts:33-40 | every statement lands on exactly one side |
| SetupPartition.PartitionConcat | src/core/transformScriptSetup.ts:33-40 | both sides keep the statements' relative order |
| SetupPartition.HoistedNotDefaultExport | src/core/transformScriptSetup.ts:35-39 | a default export is never hoisted |
| SetupBindings.DeclaredNames | src/core/transformScriptSetup.ts:43-47 | the declared names are exactly those of the three statement lists, each once |
| SetupBindings.Returns | src/core/transformScriptSetup.ts:50-55 | `setup` returns exactly the declared names the template uses, without duplicates |
| SetupBindings.FindFirst | src/core/transformScriptSetup.ts:60-61 | `find` returns an element satisfying the test, or none when no element does |
| SetupBindings.FindFirstIsFirst | src/core/transformScriptSetup.ts:60 | every element before the one found fails the test |
| SetupBindings.MatchComponent | src/core/transformScriptSetup.ts:58-62 | a tag resolves to itself when declared, else to a declared name that pascalizes to it, else to nothing |
| SetupBindings.MatchedComponents | src/core/transformScriptSetup.ts:57-63 | the registered components are declared names and include every resolved tag |
| SetupBindings.MatchedComponentsExactly | src/core/transformScriptSetup.ts:57-63 | a name is registered exactly when some template tag resolves to it |
| SetupBindings.MatchedDirectives | src/core/transformScriptSetup.ts:65-75 | a directive is bound exactly when `v` plus its capitalised name is declared |
| SfcMain.BodyNodes | src/core/transformScriptSetup.ts:83-93 | each `export default X` becomes `const __sfc_main = X`; other statements are kept in place |
| SfcMain.ReplaceDefaultExports | src/core/transformScriptSetup.ts:81-93 | the pass returns those statements, and `hasBody` is whether a default export existed |
| SfcMain.BodyNodesNoDefaultExport | src/core/transformScriptSetup.ts:83-93 | no default export survives the replacement |
| TransformScriptSetup.DirectivesObject | src/core/transformScriptSetup.ts:183-192 | one `directive: identifier` property per bound directive, in order |
| TransformScriptSetup.PlanOf | src/core/transformScriptSetup.ts:29-75 | the transform fails exactly when the macros fail |
| TransformScriptSetup.PushAssignments | src/core/transformScriptSetup.ts:110-209 | the pushes append exactly the props, setup, components and directives assignments that have content, and set `hasBody` accordingly |
| TransformScriptSetup.ComputePlan | src/core/transformScriptSetup.ts:29-75 | the macros, partition and matching compute the plan its function specifies |
| TransformScriptSetup.Assemble | src/core/transformScriptSetup.ts:77-227 | program assembly gives the specified result |
| TransformScriptSetup.TransformScriptSetup | src/core/transformScriptSetup.ts:25-228 | the imperative transform returns its specification's result or error |
| TransformScriptSetup.NothingToDo | src/core/transformScriptSetup.ts:211-216 | `{ ast: null, code: '' }` comes exactly when there is no default export, no props, no setup body, no components, no directives and no `astTransforms` |
| TransformScriptSetup.SingleDefaultExport | src/core/transformScriptSetup.ts:218-220 | the program ends with `export default __sfc_main`, its only default export |
| TransformScriptSetup.StatementsPlaced | src/core/transformScriptSetup.ts:95-149 | every kept statement is hoisted or in `setup`, exactly once; the program opens with the extra declarations and hoisted statements; a non-empty body yields the `setup` assignment |
| LegacyTransformScriptSetup.Imports | src/transformScriptSetup.ts:46 | only import declarations are moved |
| LegacyTransformScriptSetup.NonImports | src/transformScriptSetup.ts:47 | only non-imports go into `setup` |
| LegacyTransformScriptSetup.ImportsSplit | src/transformScriptSetup.ts:46-47 | every statement is an import or goes into `setup`, exactly once |
| LegacyTransformScriptSetup.ComponentNames | src/transformScriptSetup.ts:41-44 | an identifier is a component exactly when the template uses it as written, camel-cased or pascal-cased |
| LegacyTransformScriptSetup.LegacyPlugins | src/transformScriptSetup.ts:9-21 | the older language check and plugin choice equal `LegacyScriptLanguage` |
| LegacyTransformScriptSetup.LegacyTransformScriptSetup | src/transformScriptSetup.ts:8-131 | the older transform returns its specification's program and code, or the language error |
| LegacyTransformScriptSetup.ImportsFirst | src/transformScriptSetup.ts:50 | the setup imports open the program, in their order |
| LegacyTransformScriptSetup.LegacySingleDefaultExport | src/transformScriptSetup.ts:121-125 | the program ends with `export default __sfc_main`, its only default export |
| LegacyTransformScriptSetup.EmptyScriptDeclaresMain | src/transformScriptSetup.ts:28 | an empty `<script>` reads as `export default {}`, so the program declares `const __sfc_main = {}` |
| MagicStrings.Initial | src/core/transform.ts:7 | a fresh MagicString holds each character of the input with nothing around it |
| MagicStrings.RemoveSpec | src/core/transform.ts:23 | an empty range is a no-op; an end past the text and a reversed range are refused; otherwise exactly the range and its appended text are cleared |
| MagicStrings.OverwriteSpec | src/core/transform.ts:25-29 | an end past the text, an empty range and a reversed range are refused; otherwise the range is cleared and its first character replaced by the content |
| MagicStrings.PrependLeftSpec | src/core/transform.ts:32 | content goes before what was appended after character index-1, or into the intro at index 0 or past the end |
| MagicStrings.InitialText | src/core/transform.ts:7 | an unedited MagicString renders the input |
| MagicStrings.RemoveDeletes | src/core/transform.ts:23 | removing `[start, end)` from a fresh string renders the input without that range |
| MagicStrings.OverwriteReplaces | src/core/transform.ts:25-29 | overwriting `[start, end)` renders the input with that range replaced by the content |
| MagicStrings.PrependLeftInserts | src/core/transform.ts:32 | `prependLeft(i, c)` on a fresh string inserts c at i, or in front for 0 or past the end |
| MagicStrings.MagicString.constructor | src/core/transform.ts:7 | the buffer starts as the initial layout of the input |
| MagicStrings.MagicString.ToString | src/core/transform.ts:37 | `toString()` renders the current layout |
| MagicStrings.MagicString.Remove | src/core/transform.ts:23 | `remove` moves to the `RemoveSpec` layout, or throws its error and changes nothing |
| MagicStrings.MagicString.Overwrite | src/core/transform.ts:25-29 | `overwrite` moves to the `OverwriteSpec` layout, or throws its error and changes nothing |
| MagicStrings.MagicString.PrependLeft | src/core/transform.ts:32 | `prependLeft` moves to the `PrependLeftSpec` layout |
| TransformAttributes.Spread | src/core/transform.ts:11-14 | spreading keeps keys unique |
| TransformAttributes.GetSpread | src/core/transform.ts:11-14 | after `{...target, ...source}` a key reads the source's value when present, else the target's |
| TransformAttributes.GetDelete | src/core/transform.ts:15 | deleting `setup` leaves every other key's value |
| TransformAttributes.MergedAttributes | src/core/transform.ts:11-15 | the merged attributes have no `setup` key and unique keys |
| TransformAttributes.MergedAttributesOverride | src/core/transform.ts:11-15 | every key other than `setup` takes the `<script setup>` value when present, else the `<script>` value |
| TransformAttributes.SplitJoin | src/core/transform.ts:16-18 | joining space-free words with spaces and splitting again gives back the words |
| TransformAttributes.RenderedAttributesSplit | src/core/transform.ts:16-18 | with space-free keys and values, the attribute string is one `key="value"` or bare `key` per entry, in order |
| Splice.SpliceSetupAfterScript | src/core/transform.ts:23-29 | with `<script>` before `<script setup>`, the output is the text with `<script>` removed and `<script setup>` replaced by the block |
| Splice.SpliceSetupBeforeScript | src/core/transform.ts:23-29 | with `<script setup>` first, the same holds |
| Splice.SplicePrependsBlock | src/core/transform.ts:23-32 | without `<script setup>`, the output is the block and a newline, then the text with `<script>` removed |
| Transform.EditOutput | src/core/transform.ts:11-37 | the attribute merge and the MagicString edits give `OutputSpec` |
| Transform.Transform | src/core/transform.ts:6-40 | `transform` returns `TransformSpec`: parse, transform, then splice, with errors propagated |
| Transform.EmptyCodeKeepsInput | src/core/transform.ts:20-37 | when nothing is generated, the output is the input |
| Transform.TransformErrors | src/core/transform.ts:8-9 | with parsers that do not throw, the language errors and macro errors are what `transform` throws |

## Left out

- The tokenizer (htmlparser2), Babel's parser, scope analysis, traversal and generator, `@vue/compiler-core`'s `baseParse`, pug, and the `@vue/shared` tag tables are foreign code. They are `Toolchain` parameters and are not modelled.
- Source maps (`generateMap`, the `sourceMap` option) and the `id` argument are not modelled; they are output only.
- `getIdentifierDeclarations` and `getFileGlobals` (src/core/identifiers.ts:12-34, 110-132) rest on Babel's scope analysis. The first is `Toolchain.declarations`. The second is not called by the core transform.
- ParseSfc.ParseSfcSpec: the `astTransforms.scriptSetup`/`script` hooks (src/core/parseSFC.ts:392-394) are not applied, because `transform` calls `parseSFC` without options.
- ParseSfc.ParseSfcSpec: a script without content is parsed as the empty text, which is what `script.content || ''` gives.
- The Set and record arguments that the walkers mutate (`identifiers`, `props`, the MagicString) are passed in and returned by value. Aliasing between callers is not modelled.
- JavaScript orders integer-like object keys first. The attribute records keep insertion order for all keys.
- MagicStrings: the buffer is modelled per character: content, plus text appended after it, plus an intro. The library's chunk splitting is not modelled. Neither are its `appendLeft`/`prependRight` families or negative indices, because `transform` uses none of them.
- MagicStrings.OverwriteSpec: the library does not check `start > end` before it splits. The model refuses that case with the reversed-range error; `transform` never passes such a range.
- Splice: for overlapping `<script>` and `<script setup>` ranges, the model gives the per-character result.
- ParseSfc.ParseSfcSpec: Babel's `parse` and pug throw on malformed input (src/core/parseSFC.ts:389-390, src/parse.ts:111, src/transformScriptSetup.ts:24-31). The `Toolchain` functions are total, so these exceptions are not modelled; the same holds for Transform.TransformErrors and for `( in points)`, which the as-written `v-for` regex produces.
- Transform.TransformErrors: lists the language and macro errors only; a parser exception is not modelled, as the line above says.
- Js.ToUpper: ASCII case mapping only. JavaScript's Unicode mapping is not modelled, including the mappings that change the length (`ß` to `SS`). Utils.Capitalize, Utils.Pascalize and Utils.PascalizeFixedPoint are stated for ASCII for the same reason.
- RuntimeProps.InferRuntimeType: `declaredTypes` is always empty in the source, so the lookup of declared types is not modelled.
- The template walkers' `exhaustiveCheckReturnUndefined` branches are unreachable for the node kinds modelled and are left out.
- `src/transform.ts`, the bundler plugins and `transformSfcRefSugar`/`transformSFCRef` are not part of this model.

## Findings

| source | as written | input that shows it | evidently intended | confidence | as-written member | corrected member |
|---|---|---|---|---|---|---|
| src/parse.ts:49 | the `v-for` alias regex is `/^.*?\w(?:in\|of)\w/`, so it needs word characters around `in`/`of` | `point in points` becomes ` in points`, which is not the source expression | `\s` around `in`/`of`, stripping the alias before `in` or `of` as the comment beside it describes, leaving `points` | not executed | LegacyParse.AliasRegexCutsIdentifier | LegacyParse.StripAliasLeavesSource |
| src/macros.ts:267-268 | the older `applyMacros` tests the raw statement for a macro call, not the statement's expression | `defineExpose(x);` is kept and never refused; `defineProps(x);` is kept and declares no props | the test on the statement's expression, as src/core/macros.ts:286-287 does, so the call is refused or removed | not executed | LegacyMacros.BareMacroStatementsIgnored | LegacyMacros.BareExposeRefused |
