/**
 * How an intersection combines its branches: every branch validates the same
 * input; if all succeed their outputs are merged as JavaScript's object
 * spread does (`{...a, ...b}`: a later branch's value wins on a shared key),
 * and if any fails the intersection fails with the errors of every failing
 * branch.
 */
module IntersectionMerge {
  import opened Wrappers
  import opened Values
  import opened Decoding

  /** `fs[f.key] = f.value`: overwrite the entry with that key where it stands, or append. */
  function Assign(fs: seq<Field>, f: Field): (r: seq<Field>)
    ensures |r| == if HasKey(fs, f.key) then |fs| else |fs| + 1
    decreases |fs|
  {
    if |fs| == 0 then [f]
    else if fs[0].key == f.key then [f] + fs[1..]
    else
      HasKeyTail(fs, f.key);
      [fs[0]] + Assign(fs[1..], f)
  }

  lemma HasKeyTail(fs: seq<Field>, k: string)
    requires |fs| > 0
    ensures HasKey(fs, k) <==> fs[0].key == k || HasKey(fs[1..], k)
  {
    assert fs == [fs[0]] + fs[1..];
    HasKeyCons(fs[0], fs[1..], k);
  }

  /** After the assignment `f.key` holds `f.value` and every other key what it held before. */
  lemma {:induction false} AssignLookup(fs: seq<Field>, f: Field, k: string)
    ensures Lookup(Assign(fs, f), k) == if k == f.key then Some(f.value) else Lookup(fs, k)
    decreases |fs|
  {
    if |fs| > 0 && fs[0].key != f.key {
      AssignLookup(fs[1..], f, k);
    }
  }

  /** The assignment adds `f.key` to the keys and no other key. */
  lemma {:induction false} AssignKeys(fs: seq<Field>, f: Field, k: string)
    ensures HasKey(Assign(fs, f), k) <==> HasKey(fs, k) || k == f.key
    decreases |fs|
  {
    if |fs| == 0 {
      HasKeyCons(f, [], k);
      assert [f] + [] == [f];
    } else {
      HasKeyTail(fs, k);
      if fs[0].key == f.key {
        HasKeyCons(f, fs[1..], k);
      } else {
        AssignKeys(fs[1..], f, k);
        HasKeyCons(fs[0], Assign(fs[1..], f), k);
      }
    }
  }

  /** Assigning to an object with unique keys keeps them unique. */
  lemma {:induction false} AssignUnique(fs: seq<Field>, f: Field)
    requires UniqueKeys(fs)
    ensures UniqueKeys(Assign(fs, f))
    decreases |fs|
  {
    if |fs| > 0 && fs[0].key != f.key {
      var rest := Assign(fs[1..], f);
      AssignUnique(fs[1..], f);
      HasKeyTail(fs, fs[0].key);
      UniqueTail(fs);
      AssignKeys(fs[1..], f, fs[0].key);
      forall j | 0 <= j < |rest| ensures rest[j].key != fs[0].key {
        assert HasKey(rest, rest[j].key);
      }
    }
  }

  /** Assigning a key the object does not have appends it. */
  lemma {:induction false} AssignFresh(fs: seq<Field>, f: Field)
    requires !HasKey(fs, f.key)
    ensures Assign(fs, f) == fs + [f]
    decreases |fs|
  {
    if |fs| > 0 {
      HasKeyTail(fs, f.key);
      AssignFresh(fs[1..], f);
      assert [fs[0]] + (fs[1..] + [f]) == fs + [f];
    }
  }

  /** `{...a, ...b}` on the own keys of two objects. */
  function Spread(a: seq<Field>, b: seq<Field>): seq<Field>
    decreases |b|
  {
    if |b| == 0 then a else Spread(Assign(a, b[0]), b[1..])
  }

  /** The tail of a list with unique keys has unique keys and lacks the head's key. */
  lemma UniqueTail(b: seq<Field>)
    requires |b| > 0 && UniqueKeys(b)
    ensures UniqueKeys(b[1..]) && !HasKey(b[1..], b[0].key)
  {
    forall j | 0 <= j < |b[1..]| ensures b[1..][j].key != b[0].key {
      assert b[1..][j] == b[j + 1];
    }
  }

  /** A key of the spread is looked up in `b` when `b` has it, and in `a` otherwise. */
  lemma {:induction false} SpreadLookup(a: seq<Field>, b: seq<Field>, k: string)
    requires UniqueKeys(b)
    ensures Lookup(Spread(a, b), k) == if HasKey(b, k) then Lookup(b, k) else Lookup(a, k)
    decreases |b|
  {
    if |b| > 0 {
      HasKeyTail(b, k);
      UniqueTail(b);
      SpreadLookup(Assign(a, b[0]), b[1..], k);
      AssignLookup(a, b[0], k);
    }
  }

  /** The spread has exactly the keys of both sides. */
  lemma {:induction false} SpreadHasKey(a: seq<Field>, b: seq<Field>, k: string)
    ensures HasKey(Spread(a, b), k) <==> HasKey(a, k) || HasKey(b, k)
    decreases |b|
  {
    if |b| > 0 {
      SpreadHasKey(Assign(a, b[0]), b[1..], k);
      AssignKeys(a, b[0], k);
      HasKeyTail(b, k);
    }
  }

  /** Spreading into an object with unique keys keeps them unique. */
  lemma {:induction false} SpreadUnique(a: seq<Field>, b: seq<Field>)
    requires UniqueKeys(a)
    ensures UniqueKeys(Spread(a, b))
    decreases |b|
  {
    if |b| > 0 {
      AssignUnique(a, b[0]);
      SpreadUnique(Assign(a, b[0]), b[1..]);
    }
  }

  /** With no shared key, the spread is the two field lists one after the other. */
  lemma {:induction false} SpreadDisjoint(a: seq<Field>, b: seq<Field>)
    requires forall k :: HasKey(a, k) ==> !HasKey(b, k)
    requires UniqueKeys(b)
    ensures Spread(a, b) == a + b
    decreases |b|
  {
    if |b| > 0 {
      var head, tail := b[0], b[1..];
      HasKeyTail(b, head.key);
      AssignFresh(a, head);
      var a' := a + [head];
      UniqueTail(b);
      forall k | HasKey(a', k) ensures !HasKey(tail, k) {
        HasKeyConcat(a, [head], k);
        HasKeyCons(head, [], k);
        assert [head] + [] == [head];
        HasKeyTail(b, k);
      }
      SpreadDisjoint(a', tail);
      assert a' + tail == a + b;
    }
  }

  /** Assigning a field the object already has, to the value it already holds, changes nothing. */
  lemma {:induction false} AssignPresent(fs: seq<Field>, f: Field)
    requires f in fs && UniqueKeys(fs)
    ensures Assign(fs, f) == fs
    decreases |fs|
  {
    if fs[0].key == f.key {
      var j :| 0 <= j < |fs| && fs[j] == f;
      assert fs[j].key == fs[0].key;
      assert [f] + fs[1..] == fs;
    } else {
      UniqueTail(fs);
      assert f in fs[1..];
      AssignPresent(fs[1..], f);
      assert [fs[0]] + fs[1..] == fs;
    }
  }

  /** Spreading fields that `a` already holds over `a` leaves `a` as it was. */
  lemma {:induction false} SpreadAbsorbs(a: seq<Field>, b: seq<Field>)
    requires UniqueKeys(a) && forall f :: f in b ==> f in a
    ensures Spread(a, b) == a
    decreases |b|
  {
    if |b| > 0 {
      AssignPresent(a, b[0]);
      assert forall f :: f in b[1..] ==> f in b;
      SpreadAbsorbs(a, b[1..]);
    }
  }

  /** Merging two branch outputs: objects are spread, anything else is replaced by the later output. */
  function Merge(x: Value, y: Value): Value {
    if x.Obj? && y.Obj? then Obj(Spread(x.fields, y.fields)) else y
  }

  /** The left-to-right merge of the outputs of all branches. */
  function MergeAll(vs: seq<Value>): Value
    requires |vs| > 0
    decreases |vs|
  {
    if |vs| == 1 then vs[0] else Merge(MergeAll(vs[..|vs| - 1]), vs[|vs| - 1])
  }

  /** The fields of objects one after the other. */
  function ConcatFields(vs: seq<Value>): seq<Field>
    requires forall i :: 0 <= i < |vs| ==> vs[i].Obj?
    decreases |vs|
  {
    if |vs| == 0 then [] else ConcatFields(vs[..|vs| - 1]) + vs[|vs| - 1].fields
  }

  lemma {:induction false} ConcatFieldsKey(vs: seq<Value>, k: string)
    requires forall i :: 0 <= i < |vs| ==> vs[i].Obj?
    ensures HasKey(ConcatFields(vs), k) <==> exists i :: 0 <= i < |vs| && HasKey(vs[i].fields, k)
    decreases |vs|
  {
    if |vs| > 0 {
      var n := |vs| - 1;
      var init := vs[..n];
      ConcatFieldsKey(init, k);
      var left, right := ConcatFields(init), vs[n].fields;
      assert ConcatFields(vs) == left + right;
      HasKeyConcat(left, right, k);
      if HasKey(left, k) {
        var i :| 0 <= i < |init| && HasKey(init[i].fields, k);
        assert vs[i] == init[i];
      }
      if exists i :: 0 <= i < |vs| && HasKey(vs[i].fields, k) {
        var i :| 0 <= i < |vs| && HasKey(vs[i].fields, k);
        if i < n {
          assert init[i] == vs[i];
          assert HasKey(left, k);
        } else {
          assert HasKey(right, k);
        }
      }
    }
  }

  /**
   * Branch outputs that are objects with pairwise disjoint keys merge into
   * their field union: the fields of each branch, in branch order.
   */
  lemma {:induction false} MergeAllDisjoint(vs: seq<Value>)
    requires |vs| > 0
    requires forall i :: 0 <= i < |vs| ==> vs[i].Obj? && UniqueKeys(vs[i].fields)
    requires forall i, j, k :: 0 <= i < j < |vs| && HasKey(vs[i].fields, k) ==> !HasKey(vs[j].fields, k)
    ensures MergeAll(vs) == Obj(ConcatFields(vs))
    decreases |vs|
  {
    if |vs| > 1 {
      var n := |vs| - 1;
      var init := vs[..n];
      MergeAllDisjoint(init);
      assert init[..0] == [];
      assert ConcatFields(init) == ConcatFields(init[..n - 1]) + init[n - 1].fields;
      var left: seq<Field>, right: seq<Field> := ConcatFields(init), vs[n].fields;
      forall k | HasKey(left, k) ensures !HasKey(right, k) {
        ConcatFieldsKey(init, k);
        var i :| 0 <= i < |init| && HasKey(init[i].fields, k);
        assert vs[i] == init[i];
        assert !HasKey(right, k);
      }
      SpreadDisjoint(left, right);
    } else {
      assert vs[..0] == [];
    }
  }

  /** The intersection of the branch results `rs` on the value `input`. */
  function Combine(input: Value, rs: seq<Decoded>): (r: Decoded)
    ensures r.Ok? <==> forall i :: 0 <= i < |rs| ==> rs[i].Ok?
    ensures r.Ok? && |rs| > 0 ==> r.value == MergeAll(seq(|rs|, i requires 0 <= i < |rs| => rs[i].value))
    ensures r.Ok? && |rs| == 0 ==> r.value == input
    ensures r.Err? ==> forall i, e :: 0 <= i < |rs| && rs[i].Err? && e in rs[i].errors ==> e in r.errors
  {
    if forall i :: 0 <= i < |rs| ==> rs[i].Ok? then
      if |rs| == 0 then Ok(input)
      else Ok(MergeAll(seq(|rs|, i requires 0 <= i < |rs| => rs[i].value)))
    else
      var es := AllErrors(rs);
      assert forall i, e :: 0 <= i < |rs| && rs[i].Err? && e in rs[i].errors ==> e in ErrorsOf(rs[i]);
      Err(es)
  }
}
