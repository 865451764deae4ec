/**
 * How a union picks its result once every option has been tried on the same
 * input: a single named (nominal) success wins over any number of structural
 * successes; otherwise exactly one success wins; otherwise the union fails,
 * as ambiguous when several options matched.
 */
module UnionResolution {
  import opened Decoding

  const AmbiguousMessage := "multiple options match"
  const NoMatchMessage := "no option matched"

  /** Whether option `i` is a success that counts (a named success when `namedOnly`). */
  predicate Picked(named: seq<bool>, rs: seq<Decoded>, namedOnly: bool, i: nat)
    requires |named| == |rs| && i < |rs|
  {
    rs[i].Ok? && (namedOnly ==> named[i])
  }

  /** The ascending positions below `n` of the successful results (only named options when `namedOnly`). */
  function Successes(named: seq<bool>, rs: seq<Decoded>, namedOnly: bool, n: nat): (ix: seq<nat>)
    requires |named| == |rs| && n <= |rs|
    ensures forall k :: 0 <= k < |ix| ==> ix[k] < n && Picked(named, rs, namedOnly, ix[k])
    ensures forall i :: 0 <= i < n && Picked(named, rs, namedOnly, i) ==> i in ix
    ensures forall k, l :: 0 <= k < l < |ix| ==> ix[k] < ix[l]
    ensures |ix| == 0 <==> forall i :: 0 <= i < n ==> !Picked(named, rs, namedOnly, i)
    decreases n
  {
    if n == 0 then []
    else
      var init := Successes(named, rs, namedOnly, n - 1);
      if Picked(named, rs, namedOnly, n - 1) then init + [n - 1] else init
  }

  /**
   * The union's result, given for each option whether it is a named reference
   * (`named`) and what it made of the input (`rs`).
   */
  function Resolve(named: seq<bool>, rs: seq<Decoded>): (r: Decoded)
    requires |named| == |rs|
    ensures r.Ok? ==> exists i :: 0 <= i < |rs| && r == rs[i]
    ensures r.Err? && |r.errors| == 0 ==> exists i :: 0 <= i < |rs| && r == rs[i]
    ensures r.Err? ==> |r.errors| > 0
  {
    var nominal := Successes(named, rs, true, |rs|);
    var all := Successes(named, rs, false, |rs|);
    if |nominal| == 1 then rs[nominal[0]]
    else if |all| == 1 then rs[all[0]]
    else if |all| == 0 then
      var es := AllErrors(rs);
      if |es| == 0 then Error(NoMatchMessage) else Err(es)
    else Error(AmbiguousMessage)
  }

  /** When `i` is the only counting success below `n`, the positions found are exactly `[i]`. */
  lemma {:induction false} SingleSuccess(named: seq<bool>, rs: seq<Decoded>, namedOnly: bool, n: nat, i: nat)
    requires |named| == |rs| && i < n <= |rs|
    requires Picked(named, rs, namedOnly, i)
    requires forall j :: 0 <= j < n && j != i ==> !Picked(named, rs, namedOnly, j)
    ensures Successes(named, rs, namedOnly, n) == [i]
    decreases n
  {
    if n - 1 != i {
      SingleSuccess(named, rs, namedOnly, n - 1, i);
    }
  }

  /** When exactly one option succeeds, the union returns its output. */
  lemma OnlyMatchWins(named: seq<bool>, rs: seq<Decoded>, i: nat)
    requires |named| == |rs| && i < |rs|
    requires rs[i].Ok?
    requires forall j :: 0 <= j < |rs| && j != i ==> rs[j].Err?
    ensures Resolve(named, rs) == rs[i]
  {
    SingleSuccess(named, rs, false, |rs|, i);
    if named[i] {
      SingleSuccess(named, rs, true, |rs|, i);
    }
  }

  /** A single successful named option wins, whatever structural options also succeeded. */
  lemma NamedMatchWins(named: seq<bool>, rs: seq<Decoded>, i: nat)
    requires |named| == |rs| && i < |rs|
    requires named[i] && rs[i].Ok?
    requires forall j :: 0 <= j < |rs| && j != i && named[j] ==> rs[j].Err?
    ensures Resolve(named, rs) == rs[i]
  {
    SingleSuccess(named, rs, true, |rs|, i);
  }

  /** Two successes and no successful named option: ambiguous. */
  lemma StructuralAmbiguity(named: seq<bool>, rs: seq<Decoded>, i: nat, j: nat)
    requires |named| == |rs| && i < |rs| && j < |rs| && i != j
    requires rs[i].Ok? && rs[j].Ok?
    requires forall k :: 0 <= k < |rs| && named[k] ==> rs[k].Err?
    ensures Resolve(named, rs) == Error(AmbiguousMessage)
  {
    var all := Successes(named, rs, false, |rs|);
    assert i in all && j in all;
  }

  /** Two successful named options: ambiguous, whatever else succeeded. */
  lemma NominalAmbiguity(named: seq<bool>, rs: seq<Decoded>, i: nat, j: nat)
    requires |named| == |rs| && i < |rs| && j < |rs| && i != j
    requires named[i] && named[j] && rs[i].Ok? && rs[j].Ok?
    ensures Resolve(named, rs) == Error(AmbiguousMessage)
  {
    var nominal := Successes(named, rs, true, |rs|);
    var all := Successes(named, rs, false, |rs|);
    assert i in nominal && j in nominal;
    assert i in all && j in all;
  }

  /** When no option succeeds the union fails, reporting every option's errors. */
  lemma NoMatchFails(named: seq<bool>, rs: seq<Decoded>)
    requires |named| == |rs|
    requires forall i :: 0 <= i < |rs| ==> rs[i].Err?
    ensures Resolve(named, rs).Err?
    ensures forall i, e :: 0 <= i < |rs| && e in rs[i].errors ==> e in Resolve(named, rs).errors
  {
    forall i, e | 0 <= i < |rs| && e in rs[i].errors
      ensures e in AllErrors(rs)
    {
      assert e in ErrorsOf(rs[i]);
    }
  }
}
