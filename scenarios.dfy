/**
 * The runtime's documented examples, stated over the model: each lemma or
 * method is one example validator applied to one input, with the outcome
 * the runtime promises for it.
 */
module Scenarios {
  import opened Wrappers
  import opened Text
  import opened Values
  import opened Decoding
  import opened ReflectionType
  import opened Formats
  import opened Decoder
  import opened Compile
  import opened IntersectionMerge
  import opened DecoderProperties
  import opened ObjectProperties

  const AnyString := StringType(None, None)
  const AnyNumber := NumberType(None, None)

  function Required(name: string, t: Type): Property {
    Property(name, t, true)
  }

  /** A named reference whose maker was itself built from `{ type: 'string' }` validates like it. */
  lemma NamedUsesItsMaker(env: Env)
    ensures Build(AnyString, env).Success?
    ensures Decode(Named(Reference("aa", Build(AnyString, env).value)), Str("aaa"), DefaultOptions, env) == Ok(Str("aaa"))
  {
  }

  /** `{a: 1}` matches only the option whose `a` is a number. */
  lemma UnionOfTwoObjects(env: Env)
    ensures Decode(Union([ObjectType([Required("a", AnyString)], Closed), ObjectType([Required("a", AnyNumber)], Closed)]),
                   Obj([Field("a", Number(1))]), DefaultOptions, env) == Ok(Obj([Field("a", Number(1))]))
  {
    var fs := [Field("a", Number(1))];
    var left := ObjectType([Required("a", AnyString)], Closed);
    var right := ObjectType([Required("a", AnyNumber)], Closed);
    assert FindProperty(left.properties, "a") == Some(0) && FindProperty(right.properties, "a") == Some(0);
    assert HasKey(fs, "a") by { assert fs[0].key == "a"; }
    RejectedFieldFails(left, fs, 0, DefaultOptions, env);
    AllFieldsKept(right, fs, fs, DefaultOptions, env);
    UnionSingleMatch([left, right], Obj(fs), DefaultOptions, env, 1);
  }

  /** Unknown beside a value class that accepts the value: the value class's output wins. */
  lemma UnionPrefersValueClass(ref: Reference, v: Value, w: Value, env: Env)
    requires ref.maker(v, DefaultOptions) == Ok(w)
    ensures Decode(Union([UnknownType, Named(ref)]), v, DefaultOptions, env) == Ok(w)
  {
  }

  /** Unknown beside two value classes that both accept the value: ambiguous. */
  lemma UnionOfTwoValueClasses(ref: Reference, v: Value, env: Env)
    requires ref.maker(v, DefaultOptions).Ok?
    ensures !Decode(Union([UnknownType, Named(ref), Named(ref)]), v, DefaultOptions, env).IsSuccess()
  {
    UnionTwoNamedAmbiguous([UnknownType, Named(ref), Named(ref)], v, DefaultOptions, env, 1, 2);
  }

  /** Unknown beside string on a string: ambiguous. */
  lemma UnionOfUnknownAndString(env: Env)
    ensures !Decode(Union([UnknownType, AnyString]), Str("x"), DefaultOptions, env).IsSuccess()
  {
    UnionStructuralAmbiguous([UnknownType, AnyString], Str("x"), DefaultOptions, env, 0, 1);
  }

  lemma PatternRejects(env: Env)
    requires !env.regex.matches("a+", "b")
    ensures Decode(StringType(Some("a+"), None), Str("b"), DefaultOptions, env).errors[0].error == "b does not match pattern /a+/"
  {
    assert Decode(StringType(Some("a+"), None), Str("b"), DefaultOptions, env) == Error(PatternMismatch("b", "a+"));
    assert PatternMismatch("b", "a+") == "b does not match pattern /a+/" by {
      assert "b" + " does not match pattern /" == "b does not match pattern /";
      assert "b does not match pattern /" + "a+" == "b does not match pattern /a+";
    }
  }

  lemma PatternAccepts(env: Env)
    requires env.regex.matches("a+", "aaa")
    ensures Decode(StringType(Some("a+"), None), Str("aaa"), DefaultOptions, env).IsSuccess()
  {
  }

  /** The pattern `\` does not compile, so building the validator fails with the engine's complaint. */
  lemma InvalidPatternFailsBuild(env: Env)
    requires env.regex.syntaxError("\\").Some?
    requires StartsWith(env.regex.syntaxError("\\").value, "Invalid regular expression")
    ensures Build(StringType(Some("\\"), None), env).Failure?
    ensures StartsWith(Build(StringType(Some("\\"), None), env).error, InvalidPattern("Invalid regular expression"))
  {
    StringPatternAtBuild("\\", None, env);
    var m := env.regex.syntaxError("\\").value;
    assert Build(StringType(Some("\\"), None), env).error == InvalidPattern(m);
    StartsWithConcat("pattern for 'type: string' is not valid: ", m, "Invalid regular expression");
  }

  /** A format name nobody registered does not constrain the string. */
  method UnregisteredFormat(regex: RegexEngine) returns (d: Decoded)
    ensures d == Ok(Str("b"))
  {
    var registry := new FormatRegistry();
    var built := FromReflection(registry, regex, StringType(None, Some("some-format")));
    assert built.Success?;
    d := built.value(Str("b"), DefaultOptions);
  }

  /** A registered format that fails passes its errors on. */
  method RejectingFormat(regex: RegexEngine) returns (d: Decoded)
    ensures d == Err([ValidationError([], "some error")])
  {
    var registry := new FormatRegistry();
    registry.Register("some-rejecting-format", v => MakeError([ValidationError([], "some error")]));
    var built := FromReflection(registry, regex, StringType(None, Some("some-rejecting-format")));
    assert built.Success?;
    var env := Env(registry.formats, regex);
    d := built.value(Str("b"), DefaultOptions);
    assert d == Decode(StringType(None, Some("some-rejecting-format")), Str("b"), DefaultOptions, env);
    assert env.formats["some-rejecting-format"](Str("b")) == Err([ValidationError([], "some error")]);
    assert FormatRejects(Some("some-rejecting-format"), Str("b"), env);
  }

  /** A registered format that accepts leaves the string as it was; the format's own output is ignored. */
  method AcceptingFormat(regex: RegexEngine) returns (d: Decoded)
    ensures d.IsSuccess() && d.Success() == Str("b")
  {
    var registry := new FormatRegistry();
    registry.Register("some-accepting-format", v => MakeOk(Undefined));
    var built := FromReflection(registry, regex, StringType(None, Some("some-accepting-format")));
    assert built.Success?;
    d := built.value(Str("b"), DefaultOptions);
  }

  const BranchA := ObjectType([Required("a", AnyString)], Open)
  const BranchB := ObjectType([Required("b", AnyNumber)], Open)
  const StringAndNumber := [Field("a", Str("xxx")), Field("b", Number(1))]

  lemma BranchAAccepts(env: Env)
    ensures Decode(BranchA, Obj(StringAndNumber), DefaultOptions, env) == Ok(Obj(StringAndNumber))
  {
    var fs := StringAndNumber;
    assert FindProperty(BranchA.properties, "a") == Some(0) && FindProperty(BranchA.properties, "b").None?;
    assert HasKey(fs, "a") by { assert fs[0].key == "a"; }
    AllFieldsKept(BranchA, fs, fs, DefaultOptions, env);
  }

  lemma BranchBAccepts(env: Env)
    ensures Decode(BranchB, Obj(StringAndNumber), DefaultOptions, env) == Ok(Obj(StringAndNumber))
  {
    var fs := StringAndNumber;
    assert FindProperty(BranchB.properties, "b") == Some(0) && FindProperty(BranchB.properties, "a").None?;
    assert HasKey(fs, "b") by { assert fs[1].key == "b"; }
    AllFieldsKept(BranchB, fs, fs, DefaultOptions, env);
  }

  /** Both branches of the intersection accept the whole object; the merge is that object. */
  lemma IntersectionOfOpenObjects(env: Env)
    ensures Decode(Intersection([BranchA, BranchB]), Obj(StringAndNumber), DefaultOptions, env) == Ok(Obj(StringAndNumber))
  {
    var fs := StringAndNumber;
    BranchAAccepts(env);
    BranchBAccepts(env);
    var rs := seq(2, i requires 0 <= i < 2 => Decode([BranchA, BranchB][i], Obj(fs), DefaultOptions, env));
    assert rs == [Ok(Obj(fs)), Ok(Obj(fs))];
    var outs := seq(2, i requires 0 <= i < 2 => rs[i].value);
    assert outs == [Obj(fs), Obj(fs)];
    assert outs[..1] == [Obj(fs)];
    SpreadAbsorbs(fs, fs);
    assert MergeAll(outs) == Obj(fs);
  }

  lemma NumberBounds(env: Env)
    ensures StartsWith(Decode(NumberType(Some(3), None), Number(2), DefaultOptions, env).errors[0].error, "expected a number greater or equal to")
    ensures Decode(NumberType(Some(3), None), Number(3), DefaultOptions, env).IsSuccess()
    ensures StartsWith(Decode(NumberType(None, Some(3)), Number(4), DefaultOptions, env).errors[0].error, "expected a number smaller or equal to")
    ensures Decode(NumberType(None, Some(3)), Number(3), DefaultOptions, env).IsSuccess()
  {
  }

  lemma ArrayExamples(env: Env)
    ensures Decode(ArrayType(AnyString, None, None), Arr([Str("a"), Str("b")]), DefaultOptions, env) == Ok(Arr([Str("a"), Str("b")]))
    ensures StartsWith(Decode(ArrayType(AnyString, Some(3), None), Arr([Str("a"), Str("b")]), DefaultOptions, env).errors[0].error,
                       "expected an array of minimum length")
    ensures Decode(ArrayType(AnyString, Some(3), None), Arr([Str("a"), Str("b"), Str("c")]), DefaultOptions, env).IsSuccess()
    ensures StartsWith(Decode(ArrayType(AnyString, None, Some(3)), Arr([Str("a"), Str("b"), Str("c"), Str("d")]), DefaultOptions, env).errors[0].error,
                       "expected an array of maximum length")
    ensures Decode(ArrayType(AnyString, None, Some(3)), Arr([Str("a"), Str("b"), Str("c")]), DefaultOptions, env).IsSuccess()
  {
  }

  /** An array is not an object; its rendering `[]` appears in the message. */
  lemma ArrayIsNotAnObject(env: Env)
    ensures Decode(ObjectType([], Schema(UnknownType)), Arr([]), DefaultOptions, env).errors[0].error
            == "expected an object, but got \"[]\" instead."
  {
    assert Show(Arr([])) == "[]";
  }

  /** The outcome of an object with the single field `k: 1` whose only field is rejected with `message`. */
  lemma SingleFieldRejected(t: Type, k: string, message: string, env: Env)
    requires t.ObjectType?
    requires DecodeField(t, Field(k, Number(1)), DefaultOptions, env) == Reject([ValidationError([Key(k)], message)])
    requires forall j :: 0 <= j < |t.properties| && t.properties[j].required ==> t.properties[j].name == k
    ensures Decode(t, Obj([Field(k, Number(1))]), DefaultOptions, env) == Err([ValidationError([Key(k)], message)])
  {
    var fs := [Field(k, Number(1))];
    var os := Outcomes(t, fs, DefaultOptions, env);
    assert os == [Reject([ValidationError([Key(k)], message)])];
    assert os[..0] == [];
    assert HasKey(fs, k) by { assert fs[0].key == k; }
    ObjectIsOutcomes(t, fs, DefaultOptions, env);
  }

  /** `{"__proto__": 1}` against a declared `__proto__`. */
  lemma ProtoAsDeclaredField(env: Env)
    ensures Decode(ObjectType([Required("__proto__", AnyString)], Closed), Obj([Field("__proto__", Number(1))]), DefaultOptions, env)
            == Err([ValidationError([Key("__proto__")], MagicProperty("__proto__"))])
  {
    var t := ObjectType([Required("__proto__", AnyString)], Closed);
    assert FindProperty(t.properties, "__proto__") == Some(0);
    assert IsMagicKey("__proto__");
    SingleFieldRejected(t, "__proto__", MagicProperty("__proto__"), env);
  }

  /** `{"constructor": 1}` against a declared `constructor`. */
  lemma ConstructorAsDeclaredField(env: Env)
    ensures Decode(ObjectType([Required("constructor", AnyNumber)], Closed), Obj([Field("constructor", Number(1))]), DefaultOptions, env)
            == Err([ValidationError([Key("constructor")], MagicProperty("constructor"))])
  {
    var t := ObjectType([Required("constructor", AnyNumber)], Closed);
    assert FindProperty(t.properties, "constructor") == Some(0);
    assert IsMagicKey("constructor");
    SingleFieldRejected(t, "constructor", MagicProperty("constructor"), env);
  }

  /** `{"__proto__": 1}` against numeric additional properties. */
  lemma ProtoAsAdditionalField(env: Env)
    ensures Decode(ObjectType([], Schema(AnyNumber)), Obj([Field("__proto__", Number(1))]), DefaultOptions, env)
            == Err([ValidationError([Key("__proto__")], MagicAdditional("__proto__"))])
  {
    assert IsMagicKey("__proto__");
    SingleFieldRejected(ObjectType([], Schema(AnyNumber)), "__proto__", MagicAdditional("__proto__"), env);
  }

  /** `{"constructor": 1}` against numeric additional properties. */
  lemma ConstructorAsAdditionalField(env: Env)
    ensures Decode(ObjectType([], Schema(AnyNumber)), Obj([Field("constructor", Number(1))]), DefaultOptions, env)
            == Err([ValidationError([Key("constructor")], MagicAdditional("constructor"))])
  {
    assert IsMagicKey("constructor");
    SingleFieldRejected(ObjectType([], Schema(AnyNumber)), "constructor", MagicAdditional("constructor"), env);
  }

  const DropUnknown := Options(Drop)
  const NumberA := ObjectType([Required("a", AnyNumber)], Closed)
  const NumberB := ObjectType([Required("b", AnyNumber)], Closed)

  /** `{a: 1}` against `NumberA`, under any policy. */
  lemma NumberAAccepts(opts: Options, env: Env)
    ensures Decode(NumberA, Obj([Field("a", Number(1))]), opts, env) == Ok(Obj([Field("a", Number(1))]))
  {
    var fs := [Field("a", Number(1))];
    assert FindProperty(NumberA.properties, "a") == Some(0);
    assert HasKey(fs, "a") by { assert fs[0].key == "a"; }
    AllFieldsKept(NumberA, fs, fs, opts, env);
  }

  /** `{b: 1, missing: 'value'}` against `NumberB` under the drop policy gives `{b: 1}`. */
  lemma NumberBDrops(env: Env)
    ensures Decode(NumberB, Obj([Field("b", Number(1)), Field("missing", Str("value"))]), DropUnknown, env)
            == Ok(Obj([Field("b", Number(1))]))
  {
    var fs := [Field("b", Number(1))];
    assert FindProperty(NumberB.properties, "missing").None? && FindProperty(NumberB.properties, "b") == Some(0);
    DropIgnoresUnknownField(NumberB, fs, Field("missing", Str("value")), [], DropUnknown, env);
    assert fs + [Field("missing", Str("value"))] + [] == [Field("b", Number(1)), Field("missing", Str("value"))];
    assert fs + [] == fs;
    assert HasKey(fs, "b") by { assert fs[0].key == "b"; }
    AllFieldsKept(NumberB, fs, fs, DropUnknown, env);
  }

  /** `{a: 1, missing: 'a'}` under the drop policy gives `{a: 1}`. */
  lemma DropsUnknownField(env: Env)
    ensures Decode(NumberA, Obj([Field("a", Number(1)), Field("missing", Str("a"))]), DropUnknown, env)
            == Ok(Obj([Field("a", Number(1))]))
  {
    var fs := [Field("a", Number(1))];
    assert FindProperty(NumberA.properties, "missing").None?;
    DropIgnoresUnknownField(NumberA, fs, Field("missing", Str("a")), [], DropUnknown, env);
    assert fs + [Field("missing", Str("a"))] + [] == [Field("a", Number(1)), Field("missing", Str("a"))];
    assert fs + [] == fs;
    NumberAAccepts(DropUnknown, env);
  }

  /** The drop policy reaches an object nested in a required property. */
  lemma DropsInNestedObject(env: Env)
    ensures Decode(ObjectType([Required("a", NumberB)], Closed),
                   Obj([Field("a", Obj([Field("b", Number(1)), Field("missing", Str("value"))]))]), DropUnknown, env)
            == Ok(Obj([Field("a", Obj([Field("b", Number(1))]))]))
  {
    var t := ObjectType([Required("a", NumberB)], Closed);
    var fs := [Field("a", Obj([Field("b", Number(1)), Field("missing", Str("value"))]))];
    NumberBDrops(env);
    assert FindProperty(t.properties, "a") == Some(0);
    assert HasKey(fs, "a") by { assert fs[0].key == "a"; }
    AllFieldsKept(t, fs, [Field("a", Obj([Field("b", Number(1))]))], DropUnknown, env);
  }

  /** The drop policy reaches an object validated as an additional property. */
  lemma DropsInAdditionalObject(env: Env)
    ensures Decode(ObjectType([], Schema(NumberB)),
                   Obj([Field("a", Obj([Field("b", Number(1)), Field("missing", Str("value"))]))]), DropUnknown, env)
            == Ok(Obj([Field("a", Obj([Field("b", Number(1))]))]))
  {
    var t := ObjectType([], Schema(NumberB));
    var fs := [Field("a", Obj([Field("b", Number(1)), Field("missing", Str("value"))]))];
    NumberBDrops(env);
    AllFieldsKept(t, fs, [Field("a", Obj([Field("b", Number(1))]))], DropUnknown, env);
  }

  /** Without the drop policy the unknown field is an error. */
  lemma DisallowsExtraFields(env: Env)
    ensures Decode(NumberA, Obj([Field("a", Number(1)), Field("missing", Str("a"))]), DefaultOptions, env).IsError()
  {
    assert FindProperty(NumberA.properties, "missing").None?;
    ClosedRejectsUnknownField(NumberA, [Field("a", Number(1)), Field("missing", Str("a"))], 1, DefaultOptions, env);
  }

  lemma AllowsDeclaredFields(env: Env)
    ensures Decode(NumberA, Obj([Field("a", Number(1))]), DefaultOptions, env).IsSuccess()
  {
    NumberAAccepts(DefaultOptions, env);
  }

  /** `{a: 'xxx'}` against string additional properties. */
  lemma AllowsAdditionalFields(env: Env)
    ensures Decode(ObjectType([], Schema(AnyString)), Obj([Field("a", Str("xxx"))]), DefaultOptions, env)
            == Ok(Obj([Field("a", Str("xxx"))]))
  {
    var fs := [Field("a", Str("xxx"))];
    AllFieldsKept(ObjectType([], Schema(AnyString)), fs, fs, DefaultOptions, env);
  }

  /** `{a: 1}` where `a` is declared a number and additional properties are strings. */
  lemma PrefersDeclaredField(env: Env)
    ensures Decode(ObjectType([Required("a", AnyNumber)], Schema(AnyString)), Obj([Field("a", Number(1))]), DefaultOptions, env)
            == Ok(Obj([Field("a", Number(1))]))
  {
    var t := ObjectType([Required("a", AnyNumber)], Schema(AnyString));
    var fs := [Field("a", Number(1))];
    assert FindProperty(t.properties, "a") == Some(0);
    assert HasKey(fs, "a") by { assert fs[0].key == "a"; }
    AllFieldsKept(t, fs, fs, DefaultOptions, env);
  }

  /** `{a: undefined}` with `a` optional gives `{}`. */
  lemma AllowsUndefinedOptional(env: Env)
    ensures Decode(ObjectType([Property("a", AnyNumber, false)], Closed), Obj([Field("a", Undefined)]), DefaultOptions, env)
            == Ok(Obj([]))
  {
    var t := ObjectType([Property("a", AnyNumber, false)], Closed);
    assert FindProperty(t.properties, "a") == Some(0);
    OptionalUndefinedIsOmitted(t, [], "a", [], DefaultOptions, env);
    assert [] + [Field("a", Undefined)] + [] == [Field("a", Undefined)];
    AllFieldsKept(t, [], [], DefaultOptions, env);
  }
}
