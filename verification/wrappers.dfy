/** Small things shared by all modules. */
module Wrappers {
  datatype Option<+T> = None | Some(value: T)

  const U32: int := 0x1_0000_0000

  ghost predicate Distinct<T>(s: seq<T>) {
    forall i, j :: 0 <= i < j < |s| ==> s[i] != s[j]
  }

  lemma DistinctAppend<T>(s: seq<T>, x: T)
    requires Distinct(s) && x !in s
    ensures Distinct(s + [x])
  {
  }
}
