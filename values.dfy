/**
 * The loosely-typed runtime values the decoder accepts: JSON values plus
 * JavaScript's `undefined`. An object is the ordered list of its own
 * key/value pairs, so a key such as `__proto__` is an ordinary entry, as
 * `JSON.parse` produces it.
 */
module Values {
  import opened Wrappers
  import opened Text

  datatype Value =
    | Null
    | Undefined
    | Bool(b: bool)
    | Number(n: int)
    | Str(s: string)
    | Arr(items: seq<Value>)
    | Obj(fields: seq<Field>)

  datatype Field = Field(key: string, value: Value)

  predicate HasKey(fs: seq<Field>, k: string) {
    exists i | 0 <= i < |fs| :: fs[i].key == k
  }

  lemma HasKeyConcat(a: seq<Field>, b: seq<Field>, k: string)
    ensures HasKey(a + b, k) <==> HasKey(a, k) || HasKey(b, k)
  {
    if HasKey(a + b, k) {
      var i :| 0 <= i < |a + b| && (a + b)[i].key == k;
      if i < |a| {
        assert a[i].key == k;
      } else {
        assert b[i - |a|].key == k;
      }
    }
    if HasKey(a, k) {
      var i :| 0 <= i < |a| && a[i].key == k;
      assert (a + b)[i].key == k;
    }
    if HasKey(b, k) {
      var i :| 0 <= i < |b| && b[i].key == k;
      assert (a + b)[|a| + i].key == k;
    }
  }

  lemma HasKeyCons(f: Field, fs: seq<Field>, k: string)
    ensures HasKey([f] + fs, k) <==> f.key == k || HasKey(fs, k)
  {
    HasKeyConcat([f], fs, k);
    assert [f][0].key == f.key;
  }

  /** The value stored under `k`, as an object lookup sees it (the first entry with that key). */
  function Lookup(fs: seq<Field>, k: string): (r: Option<Value>)
    ensures r.None? <==> !HasKey(fs, k)
    ensures r.Some? ==> exists i :: 0 <= i < |fs| && fs[i] == Field(k, r.value)
  {
    if |fs| == 0 then None
    else if fs[0].key == k then Some(fs[0].value)
    else Lookup(fs[1..], k)
  }

  /** Every key occurs at most once: what a JavaScript object guarantees of its own keys. */
  ghost predicate UniqueKeys(fs: seq<Field>) {
    forall i, j :: 0 <= i < j < |fs| ==> fs[i].key != fs[j].key
  }

  /** The two names that reach an object's prototype or constructor. */
  predicate IsMagicKey(k: string) {
    k == "__proto__" || k == "constructor"
  }

  /** A JSON-like rendering of a value, used in the "expected an object" message. */
  function Show(v: Value): string {
    match v
    case Null => "null"
    case Undefined => "undefined"
    case Bool(b) => if b then "true" else "false"
    case Number(n) => IntToString(n)
    case Str(s) => "\"" + s + "\""
    case Arr(xs) => "[" + Join(seq(|xs|, i requires 0 <= i < |xs| => Show(xs[i])), ",") + "]"
    case Obj(fs) =>
      "{" + Join(seq(|fs|, i requires 0 <= i < |fs| => "\"" + fs[i].key + "\":" + Show(fs[i].value)), ",") + "}"
  }
}
