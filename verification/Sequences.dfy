/** Small definitions that several modules share. */
module Sequences {

  function Min(a: nat, b: nat): nat {
    if a < b then a else b
  }

  /** No element comes twice. */
  ghost predicate Distinct<T>(s: seq<T>) {
    forall j, k :: 0 <= j < k < |s| ==> s[j] != s[k]
  }

  lemma Associate<T>(a: seq<T>, b: seq<T>, c: seq<T>)
    ensures a + b + c == a + (b + c)
  {
  }
}
