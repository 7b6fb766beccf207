/** Small shared vocabulary: optional values, the source's saturating subtraction, and
    "this sequence lists exactly that set, once each" for orders a hash map leaves open. */
module Base {

  datatype Option<+T> = None | Some(value: T) {
    function GetOr(default: T): T {
      match this
      case Some(v) => v
      case None => default
    }
  }

  // u64::saturating_sub
  function SatSub(a: nat, b: nat): nat {
    if a >= b then a - b else 0
  }

  function MaxNat(a: nat, b: nat): nat {
    if a >= b then a else b
  }

  function MinNat(a: nat, b: nat): nat {
    if a <= b then a else b
  }

  // A running mean, with the source's `n.max(1)` guard.
  function Mean(sum: real, n: nat): real {
    sum / MaxNat(n, 1) as real
  }

  lemma MeanTimes(sum: real, n: nat)
    requires n > 0
    ensures Mean(sum, n) * n as real == sum
  {
  }

  function ToReal(o: Option<nat>): Option<real> {
    match o
    case None => None
    case Some(v) => Some(v as real)
  }

  ghost predicate NoDuplicates<T>(s: seq<T>) {
    forall i, j :: 0 <= i < j < |s| ==> s[i] != s[j]
  }

  // `s` lists the elements of `S` once each, in some order.
  ghost predicate Enumerates<T>(s: seq<T>, S: set<T>) {
    && NoDuplicates(s)
    && (forall x :: x in s ==> x in S)
    && (forall x :: x in S ==> x in s)
  }

  // `picked` is what stands at these positions of `s`, in order.
  ghost predicate PickedAt<T>(picked: seq<T>, s: seq<T>, at: seq<nat>) {
    && |picked| == |at|
    && (forall i, j :: 0 <= i < j < |at| ==> at[i] < at[j])
    && (forall i :: 0 <= i < |at| ==> at[i] < |s| && picked[i] == s[at[i]])
  }

  // The elements that are kept are picked, and no others.
  ghost predicate Selects<T(!new)>(picked: seq<T>, s: seq<T>, at: seq<nat>, keep: T -> bool) {
    PickedAt(picked, s, at) && forall k: nat :: k < |s| ==> (k in at <==> keep(s[k]))
  }

  lemma SelectsNothing<T(!new)>(keep: T -> bool)
    ensures Selects([], [], [], keep)
  {
  }

  // One more element at the end.
  lemma SelectsNext<T(!new)>(picked: seq<T>, s: seq<T>, at: seq<nat>, keep: T -> bool, x: T)
    requires Selects(picked, s, at, keep)
    ensures if keep(x) then Selects(picked + [x], s + [x], at + [|s|], keep) else Selects(picked, s + [x], at, keep)
  {
    var all := s + [x];
    assert forall k: nat :: k < |s| ==> all[k] == s[k];
    assert forall k: nat :: k in at ==> k < |s|;
  }
}
