/**
 * The errors the transform raises, each with the exact message the source
 * throws, and the Result type that carries them in place of an exception.
 */
module Errors {

  datatype Macro = DefineProps | DefineEmits | DefineExpose | WithDefaults

  function MacroName(m: Macro): string
  {
    match m
    case DefineProps => "defineProps"
    case DefineEmits => "defineEmits"
    case DefineExpose => "defineExpose"
    case WithDefaults => "withDefaults"
  }

  datatype Error =
    | LanguageMismatch
    | UnsupportedLanguage(lang: string)
    | DuplicateCall(macro: Macro)
    | MixedArguments(macro: Macro)
    | BadTypeArgument(macro: Macro)
    | WithDefaultsNeedsTypeBased
    | WithDefaultsFirstArgument
    | ExposeArity
    | ExposeUnsupported
    | TopLevelAwait
    | OutOfBounds
    | EndOutOfBounds
    | ReversedRange
    | ZeroLengthOverwrite

  /** The text of the thrown `Error`/`SyntaxError`. */
  function Message(e: Error): string
  {
    match e
    case LanguageMismatch => "<script setup> language must be the same as <script>"
    case UnsupportedLanguage(lang) => "Unsupported script language: " + lang
    case DuplicateCall(m) => "duplicate " + MacroName(m) + "() call"
    case MixedArguments(m) =>
      MacroName(m) + "() cannot accept both type and non-type arguments at the same time. Use one or the other."
    case BadTypeArgument(m) =>
      if m == DefineEmits then
        "type argument passed to defineEmits() must be a function type, a literal type with call signatures, or a reference to the above types."
      else
        "type argument passed to " + MacroName(m) + "() must be a literal type, or a reference to an interface or literal type."
    case WithDefaultsNeedsTypeBased => "withDefaults can only be used with type-based defineProps declaration."
    case WithDefaultsFirstArgument => "withDefaults' first argument must be a defineProps call."
    case ExposeArity => "defineExpose() requires one argument"
    case ExposeUnsupported => "Vue 2 does not support defineExpose()"
    case TopLevelAwait => "top-level await is not supported in Vue 2"
    case OutOfBounds => "Character is out of bounds"
    case EndOutOfBounds => "end is out of bounds"
    case ReversedRange => "end must be greater than start"
    case ZeroLengthOverwrite => "Cannot overwrite a zero-length range – use appendLeft or prependRight instead"
  }

  datatype Result<+T> = Ok(value: T) | Err(error: Error) {
    predicate IsFailure() { Err? }
    function PropagateFailure<U>(): Result<U>
      requires Err?
    {
      Err(error)
    }
    function Extract(): T
      requires Ok?
    {
      value
    }
  }
}
