/**
 * `make.fromReflection`: building a validator from a descriptor. Building
 * compiles every string pattern the descriptor holds; a pattern the regex
 * engine cannot compile makes the build fail, so an invalid pattern is never
 * reported as a validation error. A named reference already carries its own
 * maker and is not looked into.
 */
module Compile {
  import opened Wrappers
  import opened Text
  import opened Values
  import opened Decoding
  import opened ReflectionType
  import opened Formats
  import opened Decoder

  /** The build failure for a pattern the engine refuses, followed by the engine's message. */
  function InvalidPattern(engineMessage: string): string {
    "pattern for 'type: string' is not valid: " + engineMessage
  }

  function Flatten(xss: seq<seq<string>>): (r: seq<string>)
    ensures forall p :: p in r <==> exists i :: 0 <= i < |xss| && p in xss[i]
    decreases |xss|
  {
    if |xss| == 0 then []
    else
      var n := |xss| - 1;
      var init := Flatten(xss[..n]);
      assert forall i :: 0 <= i < n ==> xss[..n][i] == xss[i];
      init + xss[n]
  }

  /** Every string pattern of the descriptor, outside named references. */
  function Patterns(t: Type): seq<string>
    decreases t
  {
    match t
    case Named(_) => []
    case Union(ts) => Flatten(seq(|ts|, i requires 0 <= i < |ts| => Patterns(ts[i])))
    case Intersection(ts) => Flatten(seq(|ts|, i requires 0 <= i < |ts| => Patterns(ts[i])))
    case StringType(pattern, _) => if pattern.Some? then [pattern.value] else []
    case NumberType(_, _) => []
    case ArrayType(items, _, _) => Patterns(items)
    case ObjectType(props, additional) =>
      Flatten(seq(|props|, i requires 0 <= i < |props| => Patterns(props[i].value)))
        + (if additional.Schema? then Patterns(additional.schema) else [])
    case UnknownType => []
  }

  /** The engine's complaint about the first of `ps` it cannot compile. */
  function FirstSyntaxError(ps: seq<string>, regex: RegexEngine): (r: Option<string>)
    ensures r.None? <==> forall p :: p in ps ==> regex.syntaxError(p).None?
    ensures r.Some? ==> exists p :: p in ps && regex.syntaxError(p) == Some(r.value)
    decreases |ps|
  {
    if |ps| == 0 then None
    else if regex.syntaxError(ps[0]).Some? then regex.syntaxError(ps[0])
    else
      assert forall p :: p in ps[1..] ==> p in ps;
      assert forall p :: p in ps ==> p == ps[0] || p in ps[1..];
      FirstSyntaxError(ps[1..], regex)
  }

  /**
   * The build: fails with the engine's message when a pattern does not
   * compile, and otherwise yields the validator that decodes by `t`.
   */
  function Build(t: Type, env: Env): (r: Result<Maker, string>)
    ensures r.Success? <==> forall p :: p in Patterns(t) ==> env.regex.syntaxError(p).None?
    ensures r.Failure? ==>
      exists p :: p in Patterns(t) && env.regex.syntaxError(p).Some? && r.error == InvalidPattern(env.regex.syntaxError(p).value)
    ensures r.Success? ==> forall v, opts :: r.value(v, opts) == Decode(t, v, opts, env)
  {
    var bad := FirstSyntaxError(Patterns(t), env.regex);
    if bad.Some? then Failure(InvalidPattern(bad.value))
    else Success((v, opts) => Decode(t, v, opts, env))
  }

  /**
   * `make.fromReflection(t)`: the build against the formats registered so
   * far, with the registry left as it was.
   */
  method FromReflection(registry: FormatRegistry, regex: RegexEngine, t: Type) returns (r: Result<Maker, string>)
    ensures r == Build(t, Env(registry.formats, regex))
  {
    r := Build(t, Env(registry.formats, regex));
  }

  /** A string descriptor's pattern is compiled at build time: the build fails exactly when it is invalid. */
  lemma StringPatternAtBuild(pattern: string, format: Option<string>, env: Env)
    ensures Build(StringType(Some(pattern), format), env).Failure? <==> env.regex.syntaxError(pattern).Some?
    ensures env.regex.syntaxError(pattern).Some? ==>
      Build(StringType(Some(pattern), format), env) == Failure(InvalidPattern(env.regex.syntaxError(pattern).value))
  {
    assert Patterns(StringType(Some(pattern), format)) == [pattern];
  }

  /** Patterns nested in object properties are compiled at build time too. */
  lemma {:induction false} NestedPatternAtBuild(props: seq<Property>, j: nat, additional: Additional, env: Env)
    requires j < |props| && props[j].value.StringType? && props[j].value.pattern.Some?
    requires env.regex.syntaxError(props[j].value.pattern.value).Some?
    ensures Build(ObjectType(props, additional), env).Failure?
  {
    var ps := seq(|props|, i requires 0 <= i < |props| => Patterns(props[i].value));
    assert props[j].value.pattern.value in ps[j];
  }
}
