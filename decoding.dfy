/**
 * The result model of the runtime: a `Decoded` value is either a validated
 * value or a list of path-qualified validation errors, and `Options` is the
 * record every validator receives and forwards to the validators it calls.
 */
module Decoding {
  import opened Values

  /** One step of an error path: an object key or an array index. */
  datatype Segment = Key(name: string) | Index(position: nat)

  datatype ValidationError = ValidationError(path: seq<Segment>, error: string)

  datatype Decoded = Ok(value: Value) | Err(errors: seq<ValidationError>)
  {
    predicate IsSuccess() { Ok? }

    predicate IsError() { Err? }

    /** The validated value; asking an error result for it is a caller error. */
    function Success(): Value
      requires Ok?
    {
      value
    }
  }

  /** `Make.ok` */
  function MakeOk(v: Value): Decoded {
    Ok(v)
  }

  /** `Make.error` */
  function MakeError(errors: seq<ValidationError>): Decoded {
    Err(errors)
  }

  /** A single error at the validator's own position. */
  function Error(message: string): (r: Decoded)
    ensures r.Err? && |r.errors| == 1
    ensures r.errors[0].path == [] && r.errors[0].error == message
  {
    Err([ValidationError([], message)])
  }

  /** `errors` moved one step down: `seg` is put in front of every path. */
  function Under(seg: Segment, errors: seq<ValidationError>): (r: seq<ValidationError>)
    ensures |r| == |errors|
    ensures forall i :: 0 <= i < |errors| ==> r[i] == ValidationError([seg] + errors[i].path, errors[i].error)
  {
    seq(|errors|, i requires 0 <= i < |errors| => ValidationError([seg] + errors[i].path, errors[i].error))
  }

  /** The errors of a result, or none for a success. */
  function ErrorsOf(d: Decoded): seq<ValidationError> {
    if d.Err? then d.errors else []
  }

  /** All errors of the failing results, in order. */
  function AllErrors(rs: seq<Decoded>): (es: seq<ValidationError>)
    ensures forall i, e :: 0 <= i < |rs| && e in ErrorsOf(rs[i]) ==> e in es
    decreases |rs|
  {
    if |rs| == 0 then [] else AllErrors(rs[..|rs| - 1]) + ErrorsOf(rs[|rs| - 1])
  }

  /** What happens to a key that neither the declared properties nor additionalProperties admit. */
  datatype UnknownField = Fail | Drop

  datatype Options = Options(unknownField: UnknownField)

  const DefaultOptions := Options(Fail)
}
