/**
 * The type descriptor the decoder interprets: one arm per kind of schema
 * node. A named reference carries the validator of the named type (its
 * `maker`); everything else is described structurally.
 */
module ReflectionType {
  import opened Wrappers
  import opened Values
  import opened Decoding

  /** A validator: a value and the options in force give a decoding result. */
  type Maker = (Value, Options) -> Decoded

  datatype Reference = Reference(name: string, maker: Maker)

  datatype Type =
    | Named(reference: Reference)
    | Union(options: seq<Type>)
    | Intersection(options: seq<Type>)
    | StringType(pattern: Option<string>, format: Option<string>)
    | NumberType(minimum: Option<int>, maximum: Option<int>)
    | ArrayType(items: Type, minItems: Option<nat>, maxItems: Option<nat>)
    | ObjectType(properties: seq<Property>, additional: Additional)
    | UnknownType

  /** A declared object property: its name, its type and whether it must be present. */
  datatype Property = Property(name: string, value: Type, required: bool)

  /** `additionalProperties`: `false`, `true`, or a type for every undeclared key. */
  datatype Additional = Closed | Open | Schema(schema: Type)

  /** The position of the declaration of `k` in `props` (the first one, as a property lookup sees it). */
  function FindProperty(props: seq<Property>, k: string): (r: Option<nat>)
    ensures r.Some? ==> r.value < |props| && props[r.value].name == k
    ensures r.Some? ==> forall j :: 0 <= j < r.value ==> props[j].name != k
    ensures r.None? <==> forall j :: 0 <= j < |props| ==> props[j].name != k
  {
    FindFrom(props, k, 0)
  }

  function FindFrom(props: seq<Property>, k: string, from: nat): (r: Option<nat>)
    requires from <= |props|
    ensures r.Some? ==> from <= r.value < |props| && props[r.value].name == k
    ensures r.Some? ==> forall j :: from <= j < r.value ==> props[j].name != k
    ensures r.None? <==> forall j :: from <= j < |props| ==> props[j].name != k
    decreases |props| - from
  {
    if from == |props| then None
    else if props[from].name == k then Some(from)
    else FindFrom(props, k, from + 1)
  }
}
