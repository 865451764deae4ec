/**
 * What the decoder promises, stated per kind of descriptor: delegation for
 * named references, pass-through for unknown, union disambiguation,
 * intersection merging, inclusive bounds, element order, and the object
 * rules (magic keys, unknown fields, optional undefined fields).
 */
module DecoderProperties {
  import opened Wrappers
  import opened Values
  import opened Decoding
  import opened ReflectionType
  import opened Formats
  import opened UnionResolution
  import opened IntersectionMerge
  import opened Decoder

  /** What each option of a union or branch of an intersection makes of `v`. */
  function Branches(ts: seq<Type>, v: Value, opts: Options, env: Env): (rs: seq<Decoded>)
    ensures |rs| == |ts|
  {
    seq(|ts|, i requires 0 <= i < |ts| => Decode(ts[i], v, opts, env))
  }

  function NamedFlags(ts: seq<Type>): (named: seq<bool>)
    ensures |named| == |ts|
  {
    seq(|ts|, i requires 0 <= i < |ts| => ts[i].Named?)
  }

  /** The union case of `Decode`, stated over `Branches` and `NamedFlags`. */
  lemma UnionIsResolve(ts: seq<Type>, v: Value, opts: Options, env: Env)
    ensures Decode(Union(ts), v, opts, env) == Resolve(NamedFlags(ts), Branches(ts, v, opts, env))
  {
  }

  // ---------------------------------------------------------------- named, unknown

  /** A named descriptor returns exactly what its maker returns, with the same options. */
  lemma NamedDelegates(ref: Reference, v: Value, opts: Options, env: Env)
    ensures Decode(Named(ref), v, opts, env) == ref.maker(v, opts)
  {
  }

  /** Unknown accepts every value and returns it unchanged. */
  lemma UnknownAcceptsEverything(v: Value, opts: Options, env: Env)
    ensures Decode(UnknownType, v, opts, env) == Ok(v)
  {
  }

  // ---------------------------------------------------------------- union

  /** When exactly one option accepts the value, the union returns that option's output. */
  lemma {:induction false} UnionSingleMatch(ts: seq<Type>, v: Value, opts: Options, env: Env, i: nat)
    requires i < |ts| && Decode(ts[i], v, opts, env).Ok?
    requires forall j :: 0 <= j < |ts| && j != i ==> Decode(ts[j], v, opts, env).Err?
    ensures Decode(Union(ts), v, opts, env) == Decode(ts[i], v, opts, env)
  {
    var rs := Branches(ts, v, opts, env);
    OnlyMatchWins(NamedFlags(ts), rs, i);
  }

  /** One successful named option wins over any number of successful structural options. */
  lemma {:induction false} UnionPrefersNamed(ts: seq<Type>, v: Value, opts: Options, env: Env, i: nat)
    requires i < |ts| && ts[i].Named? && Decode(ts[i], v, opts, env).Ok?
    requires forall j :: 0 <= j < |ts| && j != i && ts[j].Named? ==> Decode(ts[j], v, opts, env).Err?
    ensures Decode(Union(ts), v, opts, env) == Decode(ts[i], v, opts, env)
  {
    var rs := Branches(ts, v, opts, env);
    NamedMatchWins(NamedFlags(ts), rs, i);
  }

  /** Two successful named options make the union ambiguous, whatever else matched. */
  lemma {:induction false} UnionTwoNamedAmbiguous(ts: seq<Type>, v: Value, opts: Options, env: Env, i: nat, j: nat)
    requires i < |ts| && j < |ts| && i != j && ts[i].Named? && ts[j].Named?
    requires Decode(ts[i], v, opts, env).Ok? && Decode(ts[j], v, opts, env).Ok?
    ensures Decode(Union(ts), v, opts, env) == Error(AmbiguousMessage)
  {
    NominalAmbiguity(NamedFlags(ts), Branches(ts, v, opts, env), i, j);
  }

  /** Two successful options and no successful named one make the union ambiguous. */
  lemma {:induction false} UnionStructuralAmbiguous(ts: seq<Type>, v: Value, opts: Options, env: Env, i: nat, j: nat)
    requires i < |ts| && j < |ts| && i != j
    requires Decode(ts[i], v, opts, env).Ok? && Decode(ts[j], v, opts, env).Ok?
    requires forall k :: 0 <= k < |ts| && ts[k].Named? ==> Decode(ts[k], v, opts, env).Err?
    ensures Decode(Union(ts), v, opts, env) == Error(AmbiguousMessage)
  {
    StructuralAmbiguity(NamedFlags(ts), Branches(ts, v, opts, env), i, j);
  }

  /** When no option accepts the value, the union fails and reports every option's errors. */
  lemma {:induction false} UnionNoMatch(ts: seq<Type>, v: Value, opts: Options, env: Env)
    requires forall i :: 0 <= i < |ts| ==> Decode(ts[i], v, opts, env).Err?
    ensures Decode(Union(ts), v, opts, env).Err?
    ensures forall i, e :: 0 <= i < |ts| && e in Decode(ts[i], v, opts, env).errors ==>
      e in Decode(Union(ts), v, opts, env).errors
  {
    var rs := Branches(ts, v, opts, env);
    NoMatchFails(NamedFlags(ts), rs);
    assert forall i :: 0 <= i < |ts| ==> rs[i] == Decode(ts[i], v, opts, env);
  }

  // ---------------------------------------------------------------- intersection

  /** An intersection succeeds exactly when every branch accepts the same input. */
  lemma IntersectionNeedsEveryBranch(ts: seq<Type>, v: Value, opts: Options, env: Env)
    ensures Decode(Intersection(ts), v, opts, env).Ok? <==> forall i :: 0 <= i < |ts| ==> Decode(ts[i], v, opts, env).Ok?
    ensures Decode(Intersection(ts), v, opts, env).Err? ==>
      forall i, e :: 0 <= i < |ts| && Decode(ts[i], v, opts, env).Err? && e in Decode(ts[i], v, opts, env).errors ==>
        e in Decode(Intersection(ts), v, opts, env).errors
  {
    var rs := Branches(ts, v, opts, env);
    assert forall i :: 0 <= i < |ts| ==> rs[i] == Decode(ts[i], v, opts, env);
  }

  /**
   * When every branch accepts the input with an object whose keys no other
   * branch produces, the intersection's output is the field union of the
   * branch outputs, in branch order.
   */
  lemma {:induction false} IntersectionMergesDisjointObjects(ts: seq<Type>, v: Value, opts: Options, env: Env, outs: seq<Value>)
    requires |ts| > 0 && |outs| == |ts|
    requires forall i :: 0 <= i < |ts| ==> Decode(ts[i], v, opts, env) == Ok(outs[i])
    requires forall i :: 0 <= i < |outs| ==> outs[i].Obj? && UniqueKeys(outs[i].fields)
    requires forall i, j, k :: 0 <= i < j < |outs| && HasKey(outs[i].fields, k) ==> !HasKey(outs[j].fields, k)
    ensures Decode(Intersection(ts), v, opts, env) == Ok(Obj(ConcatFields(outs)))
  {
    var rs := Branches(ts, v, opts, env);
    assert seq(|rs|, i requires 0 <= i < |rs| => rs[i].value) == outs;
    MergeAllDisjoint(outs);
  }

  // ---------------------------------------------------------------- arrays

  /** The array validator accepts exactly the arrays within the (inclusive) length bounds whose every item is accepted. */
  lemma ArrayAccepts(items: Type, minItems: Option<nat>, maxItems: Option<nat>, v: Value, opts: Options, env: Env)
    ensures Decode(ArrayType(items, minItems, maxItems), v, opts, env).Ok? <==>
      && v.Arr?
      && (minItems.None? || minItems.value <= |v.items|)
      && (maxItems.None? || |v.items| <= maxItems.value)
      && forall i :: 0 <= i < |v.items| ==> Decode(items, v.items[i], opts, env).Ok?
  {
    if v.Arr? {
      var rs := seq(|v.items|, k requires 0 <= k < |v.items| => Decode(items, v.items[k], opts, env));
      assert forall i :: 0 <= i < |v.items| ==> rs[i] == Decode(items, v.items[i], opts, env);
    }
  }

  /** The array output holds the item outputs, one per input item, in input order. */
  lemma ArrayKeepsOrder(items: Type, minItems: Option<nat>, maxItems: Option<nat>, v: Value, opts: Options, env: Env, w: Value)
    requires Decode(ArrayType(items, minItems, maxItems), v, opts, env) == Ok(w)
    ensures v.Arr? && w.Arr? && |w.items| == |v.items|
    ensures forall i :: 0 <= i < |v.items| ==> Decode(items, v.items[i], opts, env) == Ok(w.items[i])
  {
    var rs := seq(|v.items|, k requires 0 <= k < |v.items| => Decode(items, v.items[k], opts, env));
    assert forall i :: 0 <= i < |v.items| ==> rs[i] == Decode(items, v.items[i], opts, env);
  }

  /** Arrays outside the length bounds fail with the bound's message. */
  lemma ArrayBoundMessages(items: Type, minItems: Option<nat>, maxItems: Option<nat>, xs: seq<Value>, opts: Options, env: Env)
    ensures minItems.Some? && |xs| < minItems.value ==>
      Decode(ArrayType(items, minItems, maxItems), Arr(xs), opts, env) == Error(TooShort(minItems.value))
    ensures (minItems.None? || minItems.value <= |xs|) && maxItems.Some? && |xs| > maxItems.value ==>
      Decode(ArrayType(items, minItems, maxItems), Arr(xs), opts, env) == Error(TooLong(maxItems.value))
  {
  }

  /** Every failing element contributes its errors, under its index. */
  lemma ArrayReportsEveryFailingItem(items: Type, v: Value, opts: Options, env: Env, i: nat)
    requires v.Arr? && i < |v.items| && Decode(items, v.items[i], opts, env).Err?
    ensures Decode(ArrayType(items, None, None), v, opts, env).Err?
    ensures forall e :: e in Decode(items, v.items[i], opts, env).errors ==>
      ValidationError([Index(i)] + e.path, e.error) in Decode(ArrayType(items, None, None), v, opts, env).errors
  {
    var rs := seq(|v.items|, k requires 0 <= k < |v.items| => Decode(items, v.items[k], opts, env));
    assert ErrorsOf(rs[i]) == Decode(items, v.items[i], opts, env).errors;
  }

  // ---------------------------------------------------------------- error results

  /** A result that fails says why: it carries at least one error. */
  predicate Reports(d: Decoded) {
    d.Err? ==> |d.errors| > 0
  }

  /** Every named maker reachable from `t` reports at least one error whenever it fails. */
  ghost predicate MakersReport(t: Type)
    decreases t
  {
    match t
    case Named(ref) => forall v, o :: Reports(ref.maker(v, o))
    case Union(ts) => forall i :: 0 <= i < |ts| ==> MakersReport(ts[i])
    case Intersection(ts) => forall i :: 0 <= i < |ts| ==> MakersReport(ts[i])
    case ArrayType(items, _, _) => MakersReport(items)
    case ObjectType(props, additional) =>
      (forall j :: 0 <= j < |props| ==> MakersReport(props[j].value)) &&
      (additional.Schema? ==> MakersReport(additional.schema))
    case _ => true
  }

  /** Every registered format reports at least one error whenever it fails. */
  ghost predicate FormatsReport(env: Env) {
    forall n, v :: n in env.formats ==> Reports(env.formats[n](v))
  }

  /**
   * An error result is never empty: when the named makers and the formats it
   * relies on say why they fail, so does every validator built on them.
   */
  lemma {:induction false} DecodeReports(t: Type, v: Value, opts: Options, env: Env)
    requires MakersReport(t) && FormatsReport(env)
    ensures Reports(Decode(t, v, opts, env))
    decreases t, 2
  {
    match t
    case Named(ref) =>
    case Union(ts) =>
    case Intersection(ts) =>
      var rs := Branches(ts, v, opts, env);
      forall i | 0 <= i < |ts| ensures Reports(rs[i]) {
        DecodeReports(ts[i], v, opts, env);
      }
      CombineReports(v, rs);
    case StringType(_, _) =>
    case NumberType(_, _) =>
    case ArrayType(items, minItems, maxItems) =>
      if v.Arr? {
        var rs := seq(|v.items|, i requires 0 <= i < |v.items| => Decode(items, v.items[i], opts, env));
        forall i | 0 <= i < |v.items| ensures Reports(rs[i]) {
          DecodeReports(items, v.items[i], opts, env);
        }
        ElementsReports(rs);
      }
    case ObjectType(_, _) =>
      if v.Obj? {
        ObjectReports(t, v.fields, opts, env);
      }
    case UnknownType =>
  }

  lemma CombineReports(input: Value, rs: seq<Decoded>)
    requires forall i :: 0 <= i < |rs| ==> Reports(rs[i])
    ensures Reports(Combine(input, rs))
  {
    var r := Combine(input, rs);
    if r.Err? {
      var i :| 0 <= i < |rs| && rs[i].Err?;
      assert rs[i].errors[0] in r.errors;
    }
  }

  lemma ElementsReports(rs: seq<Decoded>)
    requires forall i :: 0 <= i < |rs| ==> Reports(rs[i])
    ensures Reports(Elements(rs))
  {
    var r := Elements(rs);
    if r.Err? {
      var i :| 0 <= i < |rs| && rs[i].Err?;
      assert ValidationError([Index(i)] + rs[i].errors[0].path, rs[i].errors[0].error) in r.errors;
    }
  }

  lemma {:induction false} ObjectReports(t: Type, fs: seq<Field>, opts: Options, env: Env)
    requires t.ObjectType? && MakersReport(t) && FormatsReport(env)
    ensures Reports(DecodeObject(t, fs, opts, env))
    decreases t, 1
  {
    var os := seq(|fs|, i requires 0 <= i < |fs| => DecodeField(t, fs[i], opts, env));
    if AnyRejected(os) {
      var i :| 0 <= i < |os| && os[i].Reject?;
      FieldReports(t, fs[i], opts, env);
      assert os[i].errors[0] in Rejections(os);
    }
  }

  lemma {:induction false} FieldReports(t: Type, f: Field, opts: Options, env: Env)
    requires t.ObjectType? && MakersReport(t) && FormatsReport(env)
    ensures DecodeField(t, f, opts, env).Reject? ==> |DecodeField(t, f, opts, env).errors| > 0
    decreases t, 0
  {
    match FindProperty(t.properties, f.key)
    case Some(j) =>
      DecodeReports(t.properties[j].value, f.value, opts, env);
    case None =>
      if t.additional.Schema? {
        DecodeReports(t.additional.schema, f.value, opts, env);
      }
  }
}
