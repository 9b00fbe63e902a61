/** Small things that several modules use. */
module Basics {

  /** A value or none. */
  datatype Option<T> = None | Some(value: T)

  function Max(a: int, b: int): int {
    if a < b then b else a
  }

  ghost predicate Ascending(xs: seq<nat>) {
    forall i, j :: 0 <= i < j < |xs| ==> xs[i] < xs[j]
  }

  lemma AscendingMore(xs: seq<nat>, x: nat)
    requires Ascending(xs) && forall y <- xs :: y < x
    ensures Ascending(xs + [x])
  {
    assert forall i :: 0 <= i < |xs| ==> xs[i] in xs;
  }

  /** How many there are in all lists. */
  ghost function Total<T>(sources: seq<seq<T>>): nat {
    if sources == [] then 0 else |sources[0]| + Total(sources[1..])
  }

  lemma {:induction false} TotalAfter<T>(sources: seq<seq<T>>, k: nat, rest: seq<T>)
    requires k < |sources| && |rest| < |sources[k]|
    ensures Total(sources[k := rest]) < Total(sources)
    decreases |sources|
  {
    if k > 0 {
      assert sources[k := rest][1..] == sources[1..][k - 1 := rest];
      TotalAfter(sources[1..], k - 1, rest);
    } else {
      assert sources[0 := rest][1..] == sources[1..];
    }
  }
}
