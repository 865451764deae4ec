/**
 * The object validator's rules: the magic-key guard with its two messages,
 * closed objects and the drop policy, declared properties taking precedence
 * over additionalProperties, optional properties given `undefined`, and the
 * shape of the output.
 */
module ObjectProperties {
  import opened Wrappers
  import opened Values
  import opened Decoding
  import opened ReflectionType
  import opened Formats
  import opened Decoder

  /** What the object validator does with each field of `fs`. */
  function Outcomes(t: Type, fs: seq<Field>, opts: Options, env: Env): (os: seq<FieldOutcome>)
    requires t.ObjectType?
    ensures |os| == |fs|
  {
    seq(|fs|, i requires 0 <= i < |fs| => DecodeField(t, fs[i], opts, env))
  }

  lemma ObjectIsOutcomes(t: Type, fs: seq<Field>, opts: Options, env: Env)
    requires t.ObjectType?
    ensures var os := Outcomes(t, fs, opts, env);
      var missing := MissingRequired(t.properties, fs);
      Decode(t, Obj(fs), opts, env) ==
        if AnyRejected(os) || |missing| > 0 then Err(Rejections(os) + missing) else Ok(Obj(KeptFields(os)))
  {
  }

  lemma OutcomesConcat(t: Type, a: seq<Field>, b: seq<Field>, opts: Options, env: Env)
    requires t.ObjectType?
    ensures Outcomes(t, a + b, opts, env) == Outcomes(t, a, opts, env) + Outcomes(t, b, opts, env)
  {
  }

  lemma AnyRejectedConcat(p: seq<FieldOutcome>, q: seq<FieldOutcome>)
    ensures AnyRejected(p + q) <==> AnyRejected(p) || AnyRejected(q)
  {
    if AnyRejected(p + q) {
      var i :| 0 <= i < |p + q| && (p + q)[i].Reject?;
      if i < |p| {
        assert p[i].Reject?;
      } else {
        assert q[i - |p|].Reject?;
      }
    }
    if AnyRejected(p) {
      var i :| 0 <= i < |p| && p[i].Reject?;
      assert (p + q)[i].Reject?;
    }
    if AnyRejected(q) {
      var i :| 0 <= i < |q| && q[i].Reject?;
      assert (p + q)[|p| + i].Reject?;
    }
  }

  lemma {:induction false} RejectionsConcat(p: seq<FieldOutcome>, q: seq<FieldOutcome>)
    ensures Rejections(p + q) == Rejections(p) + Rejections(q)
    decreases |q|
  {
    if |q| > 0 {
      var n := |q| - 1;
      assert (p + q)[..|p + q| - 1] == p + q[..n];
      RejectionsConcat(p, q[..n]);
    } else {
      assert p + q == p;
    }
  }

  lemma {:induction false} KeptConcat(p: seq<FieldOutcome>, q: seq<FieldOutcome>)
    ensures KeptFields(p + q) == KeptFields(p) + KeptFields(q)
    decreases |q|
  {
    if |q| > 0 {
      var n := |q| - 1;
      assert (p + q)[..|p + q| - 1] == p + q[..n];
      KeptConcat(p, q[..n]);
    } else {
      assert p + q == p;
    }
  }

  /** The missing-property errors depend only on which required names the input has. */
  lemma {:induction false} MissingSameKeys(props: seq<Property>, fs: seq<Field>, gs: seq<Field>)
    requires forall j :: 0 <= j < |props| && props[j].required ==> (HasKey(fs, props[j].name) <==> HasKey(gs, props[j].name))
    ensures MissingRequired(props, fs) == MissingRequired(props, gs)
    decreases |props|
  {
    if |props| > 0 {
      MissingSameKeys(props[..|props| - 1], fs, gs);
    }
  }

  /** An omitted outcome rejects nothing, adds no errors and keeps no field. */
  lemma OmitAlone()
    ensures !AnyRejected([Omit]) && Rejections([Omit]) == [] && KeptFields([Omit]) == []
  {
    var o: seq<FieldOutcome> := [Omit];
    assert o[..0] == [];
  }

  /** An omitted outcome contributes nothing to what the object validator collects. */
  lemma OmitContributesNothing(p: seq<FieldOutcome>, q: seq<FieldOutcome>)
    ensures AnyRejected(p + [Omit] + q) <==> AnyRejected(p + q)
    ensures Rejections(p + [Omit] + q) == Rejections(p + q)
    ensures KeptFields(p + [Omit] + q) == KeptFields(p + q)
  {
    OmitAlone();
    OmitNoRejection(p, q);
    OmitNoErrors(p, q);
    OmitNoField(p, q);
  }

  lemma OmitNoRejection(p: seq<FieldOutcome>, q: seq<FieldOutcome>)
    ensures AnyRejected(p + [Omit] + q) <==> AnyRejected(p + q)
  {
    OmitAlone();
    AnyRejectedConcat(p + [Omit], q);
    AnyRejectedConcat(p, [Omit]);
    AnyRejectedConcat(p, q);
  }

  lemma OmitNoErrors(p: seq<FieldOutcome>, q: seq<FieldOutcome>)
    ensures Rejections(p + [Omit] + q) == Rejections(p + q)
  {
    OmitAlone();
    RejectionsConcat(p + [Omit], q);
    RejectionsConcat(p, [Omit]);
    RejectionsConcat(p, q);
    assert Rejections(p) + [] == Rejections(p);
  }

  lemma OmitNoField(p: seq<FieldOutcome>, q: seq<FieldOutcome>)
    ensures KeptFields(p + [Omit] + q) == KeptFields(p + q)
  {
    OmitAlone();
    KeptConcat(p + [Omit], q);
    KeptConcat(p, [Omit]);
    KeptConcat(p, q);
    assert KeptFields(p) + [] == KeptFields(p);
  }

  lemma HasKeySkip(a: seq<Field>, x: Field, b: seq<Field>, k: string)
    requires x.key != k
    ensures HasKey(a + [x] + b, k) <==> HasKey(a + b, k)
  {
    HasKeyConcat(a + [x], b, k);
    HasKeyConcat(a, [x], k);
    HasKeyConcat(a, b, k);
    HasKeyCons(x, [], k);
    assert [x] + [] == [x];
  }

  /** Outcomes that keep a field each keep exactly those fields, in order. */
  lemma {:induction false} KeptEach(os: seq<FieldOutcome>, fs: seq<Field>)
    requires |os| == |fs| && forall i :: 0 <= i < |os| ==> os[i] == Keep(fs[i])
    ensures KeptFields(os) == fs
    decreases |os|
  {
    if |os| > 0 {
      var n := |os| - 1;
      var init, last := os[..n], os[n];
      assert forall i :: 0 <= i < n ==> init[i] == Keep(fs[..n][i]);
      KeptEach(init, fs[..n]);
      assert KeptFields(os) == KeptFields(init) + [last.field];
      assert fs[..n] + [fs[n]] == fs;
    }
  }

  /** Outcomes that keep a field each reject nothing and keep exactly those fields. */
  lemma KeptAll(os: seq<FieldOutcome>, fs: seq<Field>)
    requires |os| == |fs| && forall i :: 0 <= i < |os| ==> os[i] == Keep(fs[i])
    ensures !AnyRejected(os) && KeptFields(os) == fs
  {
    KeptEach(os, fs);
    assert forall i :: 0 <= i < |os| ==> !os[i].Reject?;
  }

  /**
   * An object whose every field the validator keeps, as the matching field of
   * `gs`, and which has every required property, is accepted as `gs`.
   */
  lemma AllFieldsKept(t: Type, fs: seq<Field>, gs: seq<Field>, opts: Options, env: Env)
    requires t.ObjectType? && |gs| == |fs|
    requires forall i :: 0 <= i < |fs| ==> DecodeField(t, fs[i], opts, env) == Keep(gs[i])
    requires forall j :: 0 <= j < |t.properties| && t.properties[j].required ==> HasKey(fs, t.properties[j].name)
    ensures Decode(t, Obj(fs), opts, env) == Ok(Obj(gs))
  {
    KeptAll(Outcomes(t, fs, opts, env), gs);
    ObjectIsOutcomes(t, fs, opts, env);
  }

  /**
   * A field the validator omits leaves no trace: the object with it decodes
   * exactly as the object without it (unless a required declaration has its name).
   */
  lemma OmittedFieldIsInvisible(t: Type, a: seq<Field>, x: Field, b: seq<Field>, opts: Options, env: Env)
    requires t.ObjectType?
    requires DecodeField(t, x, opts, env).Omit?
    requires forall j :: 0 <= j < |t.properties| && t.properties[j].name == x.key ==> !t.properties[j].required
    ensures Decode(t, Obj(a + [x] + b), opts, env) == Decode(t, Obj(a + b), opts, env)
  {
    var oa, ob := Outcomes(t, a, opts, env), Outcomes(t, b, opts, env);
    OutcomesConcat(t, a + [x], b, opts, env);
    OutcomesConcat(t, a, [x], opts, env);
    OutcomesConcat(t, a, b, opts, env);
    assert Outcomes(t, a + [x] + b, opts, env) == oa + [Omit] + ob;
    OmitContributesNothing(oa, ob);
    forall j | 0 <= j < |t.properties| && t.properties[j].required
      ensures HasKey(a + [x] + b, t.properties[j].name) <==> HasKey(a + b, t.properties[j].name)
    {
      HasKeySkip(a, x, b, t.properties[j].name);
    }
    MissingSameKeys(t.properties, a + [x] + b, a + b);
    ObjectIsOutcomes(t, a + [x] + b, opts, env);
    ObjectIsOutcomes(t, a + b, opts, env);
  }

  /**
   * Under `unknownField: drop` a closed object ignores an undeclared
   * (non-magic) key entirely: the result is the one for the input without it.
   */
  lemma DropIgnoresUnknownField(t: Type, a: seq<Field>, x: Field, b: seq<Field>, opts: Options, env: Env)
    requires t.ObjectType? && t.additional.Closed? && opts.unknownField == Drop
    requires FindProperty(t.properties, x.key).None? && !IsMagicKey(x.key)
    ensures Decode(t, Obj(a + [x] + b), opts, env) == Decode(t, Obj(a + b), opts, env)
  {
    OmittedFieldIsInvisible(t, a, x, b, opts, env);
  }

  /** An optional declared property whose value is `undefined` is left out, and is not an error. */
  lemma OptionalUndefinedIsOmitted(t: Type, a: seq<Field>, k: string, b: seq<Field>, opts: Options, env: Env)
    requires t.ObjectType? && !IsMagicKey(k)
    requires FindProperty(t.properties, k).Some?
    requires forall j :: 0 <= j < |t.properties| && t.properties[j].name == k ==> !t.properties[j].required
    ensures Decode(t, Obj(a + [Field(k, Undefined)] + b), opts, env) == Decode(t, Obj(a + b), opts, env)
  {
    OmittedFieldIsInvisible(t, a, Field(k, Undefined), b, opts, env);
  }

  /** A rejected field makes the whole object fail, and its errors are among the object's. */
  lemma {:induction false} RejectedFieldFails(t: Type, fs: seq<Field>, i: nat, opts: Options, env: Env)
    requires t.ObjectType? && i < |fs|
    requires DecodeField(t, fs[i], opts, env).Reject?
    ensures Decode(t, Obj(fs), opts, env).Err?
    ensures forall e :: e in DecodeField(t, fs[i], opts, env).errors ==> e in Decode(t, Obj(fs), opts, env).errors
  {
    var os := Outcomes(t, fs, opts, env);
    assert os[i].Reject?;
  }

  /**
   * A `__proto__` or `constructor` key always fails the object, with the
   * declared-property wording when it is declared and the additional-field
   * wording (with its trailing period) otherwise.
   */
  lemma MagicKeyIsRejected(t: Type, fs: seq<Field>, i: nat, opts: Options, env: Env)
    requires t.ObjectType? && i < |fs| && IsMagicKey(fs[i].key)
    ensures Decode(t, Obj(fs), opts, env).Err?
    ensures FindProperty(t.properties, fs[i].key).Some? ==>
      ValidationError([Key(fs[i].key)], MagicProperty(fs[i].key)) in Decode(t, Obj(fs), opts, env).errors
    ensures FindProperty(t.properties, fs[i].key).None? ==>
      ValidationError([Key(fs[i].key)], MagicAdditional(fs[i].key)) in Decode(t, Obj(fs), opts, env).errors
  {
    RejectedFieldFails(t, fs, i, opts, env);
  }

  /** Under the default policy a closed object rejects an undeclared key. */
  lemma ClosedRejectsUnknownField(t: Type, fs: seq<Field>, i: nat, opts: Options, env: Env)
    requires t.ObjectType? && t.additional.Closed? && opts.unknownField == Fail
    requires i < |fs| && FindProperty(t.properties, fs[i].key).None? && !IsMagicKey(fs[i].key)
    ensures Decode(t, Obj(fs), opts, env).Err?
    ensures ValidationError([Key(fs[i].key)], UnexpectedField) in Decode(t, Obj(fs), opts, env).errors
  {
    RejectedFieldFails(t, fs, i, opts, env);
  }

  /**
   * A declared key is validated against its declaration, never against
   * additionalProperties: its output is the declaration's output, and its
   * errors are reported under the key.
   */
  lemma {:induction false} DeclaredPropertyWins(t: Type, fs: seq<Field>, i: nat, j: nat, opts: Options, env: Env)
    requires t.ObjectType? && i < |fs| && !IsMagicKey(fs[i].key)
    requires FindProperty(t.properties, fs[i].key) == Some(j)
    requires !(fs[i].value.Undefined? && !t.properties[j].required)
    ensures var d := Decode(t.properties[j].value, fs[i].value, opts, env);
      d.Ok? && Decode(t, Obj(fs), opts, env).Ok? ==>
        Decode(t, Obj(fs), opts, env).value.Obj? && Field(fs[i].key, d.value) in Decode(t, Obj(fs), opts, env).value.fields
    ensures var d := Decode(t.properties[j].value, fs[i].value, opts, env);
      d.Err? ==>
        Decode(t, Obj(fs), opts, env).Err? &&
        forall e :: e in d.errors ==> ValidationError([Key(fs[i].key)] + e.path, e.error) in Decode(t, Obj(fs), opts, env).errors
  {
    var d := Decode(t.properties[j].value, fs[i].value, opts, env);
    var os := Outcomes(t, fs, opts, env);
    assert os[i] == Validated(fs[i].key, d);
    if d.Err? {
      RejectedFieldFails(t, fs, i, opts, env);
      forall e | e in d.errors ensures ValidationError([Key(fs[i].key)] + e.path, e.error) in os[i].errors {
        var m :| 0 <= m < |d.errors| && d.errors[m] == e;
        assert os[i].errors[m] == ValidationError([Key(fs[i].key)] + e.path, e.error);
      }
    }
  }

  /** An undeclared key of an object with an additionalProperties type is validated against that type. */
  lemma {:induction false} AdditionalSchemaApplies(t: Type, fs: seq<Field>, i: nat, opts: Options, env: Env)
    requires t.ObjectType? && t.additional.Schema? && i < |fs| && !IsMagicKey(fs[i].key)
    requires FindProperty(t.properties, fs[i].key).None?
    ensures var d := Decode(t.additional.schema, fs[i].value, opts, env);
      d.Ok? && Decode(t, Obj(fs), opts, env).Ok? ==>
        Decode(t, Obj(fs), opts, env).value.Obj? && Field(fs[i].key, d.value) in Decode(t, Obj(fs), opts, env).value.fields
    ensures var d := Decode(t.additional.schema, fs[i].value, opts, env);
      d.Err? ==>
        Decode(t, Obj(fs), opts, env).Err? &&
        forall e :: e in d.errors ==> ValidationError([Key(fs[i].key)] + e.path, e.error) in Decode(t, Obj(fs), opts, env).errors
  {
    var d := Decode(t.additional.schema, fs[i].value, opts, env);
    var os := Outcomes(t, fs, opts, env);
    assert os[i] == Validated(fs[i].key, d);
    if d.Err? {
      RejectedFieldFails(t, fs, i, opts, env);
      forall e | e in d.errors ensures ValidationError([Key(fs[i].key)] + e.path, e.error) in os[i].errors {
        var m :| 0 <= m < |d.errors| && d.errors[m] == e;
        assert os[i].errors[m] == ValidationError([Key(fs[i].key)] + e.path, e.error);
      }
    }
  }

  /** A missing required property fails the object. */
  lemma MissingPropertyFails(t: Type, fs: seq<Field>, j: nat, opts: Options, env: Env)
    requires t.ObjectType? && j < |t.properties| && t.properties[j].required && !HasKey(fs, t.properties[j].name)
    ensures Decode(t, Obj(fs), opts, env).Err?
    ensures ValidationError([Key(t.properties[j].name)], MissingField) in Decode(t, Obj(fs), opts, env).errors
  {
  }

  /**
   * Every output field comes from an input field with the same key, is never
   * a magic key, and, for a closed object, is a declared property; output
   * keys are unique when input keys are.
   */
  lemma {:induction false} ObjectOutputShape(t: Type, fs: seq<Field>, opts: Options, env: Env, w: Value)
    requires t.ObjectType? && Decode(t, Obj(fs), opts, env) == Ok(w)
    ensures w.Obj?
    ensures forall f :: f in w.fields ==> HasKey(fs, f.key) && !IsMagicKey(f.key)
    ensures t.additional.Closed? ==> forall f :: f in w.fields ==> FindProperty(t.properties, f.key).Some?
    ensures forall j :: 0 <= j < |t.properties| && t.properties[j].required ==> HasKey(fs, t.properties[j].name)
    ensures UniqueKeys(fs) ==> UniqueKeys(w.fields)
  {
    var os := Outcomes(t, fs, opts, env);
    forall f | f in w.fields ensures HasKey(fs, f.key) && !IsMagicKey(f.key) {
      var i :| 0 <= i < |os| && os[i] == Keep(f);
      assert fs[i].key == f.key;
    }
    if UniqueKeys(fs) {
      KeptUnique(os, fs);
    }
  }

  /** Every kept field's key is a key of the input, when kept fields keep their input's key. */
  lemma KeptKeysFromInput(os: seq<FieldOutcome>, fs: seq<Field>)
    requires |os| == |fs|
    requires forall i :: 0 <= i < |os| && os[i].Keep? ==> os[i].field.key == fs[i].key
    ensures forall f :: f in KeptFields(os) ==> HasKey(fs, f.key)
  {
    forall f | f in KeptFields(os) ensures HasKey(fs, f.key) {
      var i :| 0 <= i < |os| && os[i] == Keep(f);
      assert fs[i].key == f.key;
    }
  }

  lemma UniqueSnoc(fs: seq<Field>, x: Field)
    requires UniqueKeys(fs) && !HasKey(fs, x.key)
    ensures UniqueKeys(fs + [x])
  {
    var gs := fs + [x];
    forall i, j | 0 <= i < j < |gs| ensures gs[i].key != gs[j].key {
      if j == |fs| {
        assert gs[i] == fs[i];
      } else {
        assert gs[i] == fs[i] && gs[j] == fs[j];
      }
    }
  }

  /** Kept fields whose keys are those of a unique-keyed input at the same positions have unique keys. */
  lemma {:induction false} KeptUnique(os: seq<FieldOutcome>, fs: seq<Field>)
    requires |os| == |fs| && UniqueKeys(fs)
    requires forall i :: 0 <= i < |os| && os[i].Keep? ==> os[i].field.key == fs[i].key
    ensures UniqueKeys(KeptFields(os))
    ensures forall f :: f in KeptFields(os) ==> HasKey(fs, f.key)
    decreases |fs|
  {
    KeptKeysFromInput(os, fs);
    if |fs| > 0 {
      var n := |fs| - 1;
      var init, before := fs[..n], os[..n];
      assert forall i :: 0 <= i < n && before[i].Keep? ==> before[i].field.key == init[i].key;
      assert UniqueKeys(init);
      KeptUnique(before, init);
      var kept := KeptFields(before);
      if os[n].Keep? {
        forall m | 0 <= m < |kept| ensures kept[m].key != fs[n].key {
          assert kept[m] in kept;
          var i :| 0 <= i < |init| && init[i].key == kept[m].key;
          assert fs[i] == init[i];
        }
        UniqueSnoc(kept, os[n].field);
        assert KeptFields(os) == kept + [os[n].field];
      } else {
        assert KeptFields(os) == kept;
      }
    }
  }
}
