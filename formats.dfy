/**
 * What string validation depends on beyond the descriptor: the process-wide
 * registry of named formats and the regular-expression engine.
 */
module Formats {
  import opened Wrappers
  import opened Values
  import opened Decoding

  /** A format validator is a gate: only whether it fails, and with which errors, matters. */
  type Format = Value -> Decoded

  /**
   * The regular-expression engine the runtime uses, left abstract: `syntaxError(p)`
   * is the engine's complaint about pattern `p` (None when `p` compiles) and
   * `matches(p, s)` is whether the compiled `p` accepts `s`.
   */
  datatype RegexEngine = RegexEngine(syntaxError: string -> Option<string>, matches: (string, string) -> bool)

  /** What a validator reads besides its descriptor: the registered formats and the regex engine. */
  datatype Env = Env(formats: map<string, Format>, regex: RegexEngine)

  /** The registry behind `registerFormat`: empty at start, grown by registration, never shrunk. */
  class FormatRegistry {
    var formats: map<string, Format>

    constructor ()
      ensures formats == map[]
    {
      formats := map[];
    }

    /** Registers `f` under `name`; a later registration of the same name replaces the earlier one. */
    method Register(name: string, f: Format)
      modifies this
      ensures formats == old(formats)[name := f]
      ensures name in formats && formats[name] == f
      ensures forall n :: n in old(formats) ==> n in formats
      ensures forall n :: n in old(formats) && n != name ==> formats[n] == old(formats)[n]
    {
      formats := formats[name := f];
    }
  }
}
