/**
 * The reflection-driven decoder: `Decode(t, v, opts, env)` is what the
 * validator built from descriptor `t` makes of the raw value `v` under
 * options `opts`. It follows the descriptor, and every nested validation
 * (array items, declared properties, additional properties, union and
 * intersection branches, named references) receives `opts` unchanged.
 * Error paths are relative: each level puts its key or index in front of
 * the paths reported below it.
 */
module Decoder {
  import opened Wrappers
  import opened Text
  import opened Values
  import opened Decoding
  import opened ReflectionType
  import opened Formats
  import opened UnionResolution
  import opened IntersectionMerge

  const ExpectedString := "expected a string"
  const ExpectedNumber := "expected a number"
  const ExpectedArray := "expected an array"
  const UnexpectedField := "unexpected field"
  const MissingField := "missing required field"

  function PatternMismatch(s: string, pattern: string): string {
    s + " does not match pattern /" + pattern + "/"
  }

  function BelowMinimum(minimum: int): string {
    "expected a number greater or equal to " + IntToString(minimum)
  }

  function AboveMaximum(maximum: int): string {
    "expected a number smaller or equal to " + IntToString(maximum)
  }

  function TooShort(minItems: nat): string {
    "expected an array of minimum length " + NatToString(minItems)
  }

  function TooLong(maxItems: nat): string {
    "expected an array of maximum length " + NatToString(maxItems)
  }

  function NotAnObject(v: Value): string {
    "expected an object, but got \"" + Show(v) + "\" instead."
  }

  function MagicProperty(k: string): string {
    "Using " + k + " as field of an object is not allowed"
  }

  function MagicAdditional(k: string): string {
    "Using " + k + " as objects additional field is not allowed."
  }

  /** Whether a registered format turns the value down. */
  predicate FormatRejects(format: Option<string>, v: Value, env: Env) {
    format.Some? && format.value in env.formats && env.formats[format.value](v).Err?
  }

  /** What one input field contributes to an object's output. */
  datatype FieldOutcome = Keep(field: Field) | Omit | Reject(errors: seq<ValidationError>)

  /** The outcome of a field whose value was validated: kept when valid, its errors under its key otherwise. */
  function Validated(k: string, d: Decoded): FieldOutcome {
    if d.Ok? then Keep(Field(k, d.value)) else Reject(Under(Key(k), d.errors))
  }

  function Decode(t: Type, v: Value, opts: Options, env: Env): Decoded
    decreases t, 2
  {
    match t
    case Named(ref) => ref.maker(v, opts)
    case Union(ts) =>
      Resolve(seq(|ts|, i requires 0 <= i < |ts| => ts[i].Named?),
              seq(|ts|, i requires 0 <= i < |ts| => Decode(ts[i], v, opts, env)))
    case Intersection(ts) =>
      Combine(v, seq(|ts|, i requires 0 <= i < |ts| => Decode(ts[i], v, opts, env)))
    case StringType(pattern, format) => CheckString(pattern, format, v, env)
    case NumberType(minimum, maximum) => CheckNumber(minimum, maximum, v)
    case ArrayType(items, minItems, maxItems) =>
      if !v.Arr? then Error(ExpectedArray)
      else if minItems.Some? && |v.items| < minItems.value then Error(TooShort(minItems.value))
      else if maxItems.Some? && |v.items| > maxItems.value then Error(TooLong(maxItems.value))
      else Elements(seq(|v.items|, i requires 0 <= i < |v.items| => Decode(items, v.items[i], opts, env)))
    case ObjectType(_, _) =>
      if !v.Obj? then Error(NotAnObject(v)) else DecodeObject(t, v.fields, opts, env)
    case UnknownType => Ok(v)
  }

  /** The string validator: type check, then the pattern, then the format gate. */
  function CheckString(pattern: Option<string>, format: Option<string>, v: Value, env: Env): (r: Decoded)
    ensures r.Ok? <==> v.Str? && (pattern.None? || env.regex.matches(pattern.value, v.s)) && !FormatRejects(format, v, env)
    ensures r.Ok? ==> r.value == v
    ensures v.Str? && pattern.Some? && !env.regex.matches(pattern.value, v.s) ==>
      r == Error(PatternMismatch(v.s, pattern.value))
    ensures v.Str? && (pattern.None? || env.regex.matches(pattern.value, v.s)) && FormatRejects(format, v, env) ==>
      r == env.formats[format.value](v)
  {
    if !v.Str? then Error(ExpectedString)
    else if pattern.Some? && !env.regex.matches(pattern.value, v.s) then Error(PatternMismatch(v.s, pattern.value))
    else if FormatRejects(format, v, env) then env.formats[format.value](v)
    else Ok(v)
  }

  /** The number validator: both bounds are inclusive. */
  function CheckNumber(minimum: Option<int>, maximum: Option<int>, v: Value): (r: Decoded)
    ensures r.Ok? <==> v.Number? && (minimum.None? || minimum.value <= v.n) && (maximum.None? || v.n <= maximum.value)
    ensures r.Ok? ==> r.value == v
    ensures v.Number? && minimum.Some? && v.n < minimum.value ==> r == Error(BelowMinimum(minimum.value))
    ensures v.Number? && (minimum.None? || minimum.value <= v.n) && maximum.Some? && v.n > maximum.value ==>
      r == Error(AboveMaximum(maximum.value))
  {
    if !v.Number? then Error(ExpectedNumber)
    else if minimum.Some? && v.n < minimum.value then Error(BelowMinimum(minimum.value))
    else if maximum.Some? && v.n > maximum.value then Error(AboveMaximum(maximum.value))
    else Ok(v)
  }

  /**
   * The array of the item results: the outputs in input order when every item
   * succeeded, otherwise the errors of every failing item under its index.
   */
  function Elements(rs: seq<Decoded>): (r: Decoded)
    ensures r.Ok? <==> forall i :: 0 <= i < |rs| ==> rs[i].Ok?
    ensures r.Ok? ==> r.value.Arr? && |r.value.items| == |rs|
    ensures r.Ok? ==> forall i :: 0 <= i < |rs| ==> rs[i] == Ok(r.value.items[i])
    ensures r.Err? ==> forall i, e :: 0 <= i < |rs| && e in ErrorsOf(rs[i]) ==>
      ValidationError([Index(i)] + e.path, e.error) in r.errors
    decreases |rs|
  {
    if |rs| == 0 then Ok(Arr([]))
    else
      var n := |rs| - 1;
      var init := Elements(rs[..n]);
      var last := rs[n];
      if init.Ok? && last.Ok? then Ok(Arr(init.value.items + [last.value]))
      else
        var es := ErrorsOf(init) + Under(Index(n), ErrorsOf(last));
        assert forall i, e :: 0 <= i < |rs| && e in ErrorsOf(rs[i]) ==>
          ValidationError([Index(i)] + e.path, e.error) in es
        by {
          forall i, e | 0 <= i < |rs| && e in ErrorsOf(rs[i])
            ensures ValidationError([Index(i)] + e.path, e.error) in es
          {
            if i < n {
              assert rs[..n][i] == rs[i];
              assert ValidationError([Index(i)] + e.path, e.error) in ErrorsOf(init);
            } else {
              UnderKeepsAll(Index(n), ErrorsOf(init), ErrorsOf(last));
            }
          }
        }
        Err(es)
  }

  lemma UnderKeepsAll(seg: Segment, before: seq<ValidationError>, errors: seq<ValidationError>)
    ensures forall e :: e in errors ==> ValidationError([seg] + e.path, e.error) in before + Under(seg, errors)
  {
    var es := before + Under(seg, errors);
    forall e | e in errors ensures ValidationError([seg] + e.path, e.error) in es {
      var k :| 0 <= k < |errors| && errors[k] == e;
      assert es[|before| + k] == ValidationError([seg] + e.path, e.error);
    }
  }

  /** The object validator on the own fields `fs` of an object input. */
  function DecodeObject(t: Type, fs: seq<Field>, opts: Options, env: Env): Decoded
    requires t.ObjectType?
    decreases t, 1
  {
    var outcomes := seq(|fs|, i requires 0 <= i < |fs| => DecodeField(t, fs[i], opts, env));
    var missing := MissingRequired(t.properties, fs);
    if AnyRejected(outcomes) || |missing| > 0 then Err(Rejections(outcomes) + missing)
    else Ok(Obj(KeptFields(outcomes)))
  }

  /** What the object validator does with one input field. */
  function DecodeField(t: Type, f: Field, opts: Options, env: Env): (r: FieldOutcome)
    requires t.ObjectType?
    ensures IsMagicKey(f.key) ==> r.Reject?
    ensures r.Keep? ==> r.field.key == f.key
    ensures r.Keep? && t.additional.Closed? ==> FindProperty(t.properties, f.key).Some?
    ensures r.Omit? ==> opts.unknownField == Drop || (FindProperty(t.properties, f.key).Some? && f.value.Undefined?)
    decreases t, 0
  {
    match FindProperty(t.properties, f.key)
    case Some(j) =>
      var p := t.properties[j];
      if IsMagicKey(f.key) then Reject([ValidationError([Key(f.key)], MagicProperty(f.key))])
      else if f.value.Undefined? && !p.required then Omit
      else Validated(f.key, Decode(p.value, f.value, opts, env))
    case None =>
      if IsMagicKey(f.key) then Reject([ValidationError([Key(f.key)], MagicAdditional(f.key))])
      else match t.additional
        case Closed =>
          if opts.unknownField == Drop then Omit else Reject([ValidationError([Key(f.key)], UnexpectedField)])
        case Open => Keep(f)
        case Schema(s) => Validated(f.key, Decode(s, f.value, opts, env))
  }

  predicate AnyRejected(os: seq<FieldOutcome>) {
    exists i | 0 <= i < |os| :: os[i].Reject?
  }

  /** The errors of the rejected fields, in field order. */
  function Rejections(os: seq<FieldOutcome>): (es: seq<ValidationError>)
    ensures forall i, e :: 0 <= i < |os| && os[i].Reject? && e in os[i].errors ==> e in es
    decreases |os|
  {
    if |os| == 0 then []
    else
      var n := |os| - 1;
      Rejections(os[..n]) + (if os[n].Reject? then os[n].errors else [])
  }

  /** The kept fields, in field order. */
  function KeptFields(os: seq<FieldOutcome>): (fs: seq<Field>)
    ensures forall i :: 0 <= i < |os| && os[i].Keep? ==> os[i].field in fs
    ensures forall f :: f in fs ==> exists i :: 0 <= i < |os| && os[i] == Keep(f)
    decreases |os|
  {
    if |os| == 0 then []
    else
      var n := |os| - 1;
      KeptFields(os[..n]) + (if os[n].Keep? then [os[n].field] else [])
  }

  /** An error for every required property the input lacks. */
  function MissingRequired(props: seq<Property>, fs: seq<Field>): (es: seq<ValidationError>)
    ensures |es| == 0 <==> forall j :: 0 <= j < |props| && props[j].required ==> HasKey(fs, props[j].name)
    ensures forall j :: 0 <= j < |props| && props[j].required && !HasKey(fs, props[j].name) ==>
      ValidationError([Key(props[j].name)], MissingField) in es
    decreases |props|
  {
    if |props| == 0 then []
    else
      var n := |props| - 1;
      var p := props[n];
      MissingRequired(props[..n], fs) +
        (if p.required && !HasKey(fs, p.name) then [ValidationError([Key(p.name)], MissingField)] else [])
  }
}
