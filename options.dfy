/**
 * Option defaulting (`src/core/options.ts`): the caller's options are copied
 * with `Object.assign` onto a fresh object holding the defaults.
 */
module Options {
  import opened Js

  /** The option values a caller can pass. */
  datatype OptionValue =
    | UndefinedValue
    | BoolValue(b: bool)
    | StringValue(s: string)
    | ObjectValue(fields: map<string, OptionValue>)
    | OtherValue(description: string)

  /** The default options: source maps on, the reactivity transform off, helpers
      imported from `@vue/composition-api`, and no AST hooks. */
  function Defaults(): (d: map<string, OptionValue>)
    ensures d.Keys == {"sourceMap", "reactivityTransform", "importHelpersFrom", "astTransforms"}
  {
    map[
      "sourceMap" := BoolValue(true),
      "reactivityTransform" := BoolValue(false),
      "importHelpersFrom" := StringValue("@vue/composition-api"),
      "astTransforms" := ObjectValue(map[])
    ]
  }

  /** `resolveOptions(options = {})`. A missing argument is `None`. */
  function ResolveOptions(options: Option<map<string, OptionValue>>): (r: map<string, OptionValue>)
    ensures var given := if options.Some? then options.value else map[];
      && r.Keys == Defaults().Keys + given.Keys
      && (forall k :: k in given ==> r[k] == given[k])
      && (forall k :: k in Defaults() && k !in given ==> r[k] == Defaults()[k])
  {
    var given := if options.Some? then options.value else map[];
    Defaults() + given
  }

  /** Calling without an argument is the same as calling with `{}`. */
  lemma NoArgumentIsEmptyObject()
    ensures ResolveOptions(None) == ResolveOptions(Some(map[]))
    ensures ResolveOptions(None) == Defaults()
  {
  }

  /** Every option the caller supplies wins, even one explicitly `undefined`;
      every other option takes its default; no key is lost. */
  lemma CallerWins(options: map<string, OptionValue>, k: string)
    ensures k in options ==> ResolveOptions(Some(options))[k] == options[k]
    ensures k in options && options[k] == UndefinedValue ==> ResolveOptions(Some(options))[k] == UndefinedValue
    ensures k !in options && k in Defaults() ==> ResolveOptions(Some(options))[k] == Defaults()[k]
    ensures k in ResolveOptions(Some(options)) <==> k in options || k in Defaults()
  {
  }

  /** Resolving resolved options changes nothing. */
  lemma {:induction false} ResolveIdempotent(options: Option<map<string, OptionValue>>)
    ensures ResolveOptions(Some(ResolveOptions(options))) == ResolveOptions(options)
  {
    var r := ResolveOptions(options);
    var rr := ResolveOptions(Some(r));
    assert rr.Keys == r.Keys;
    forall k | k in r ensures rr[k] == r[k] {
    }
  }
}
