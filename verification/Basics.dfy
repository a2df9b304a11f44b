/** Small types shared by every module. */
module Basics {

  datatype Option<+T> = None | Some(value: T)

  function Min(a: int, b: int): int {
    if b < a then b else a
  }

  function Max(a: int, b: int): int {
    if a < b then b else a
  }

  /** The part of `a` above zero. */
  function AtLeastZero(a: int): nat {
    if a > 0 then a else 0
  }

  /** The indices below `n` that satisfy `p`, in ascending order. */
  function IndicesWhere(n: nat, p: nat -> bool): (found: seq<nat>)
    ensures forall i: nat :: i in found <==> i < n && p(i)
    ensures Ascending(found)
  {
    if n == 0 then []
    else
      var before := IndicesWhere(n - 1, p);
      assert forall k :: 0 <= k < |before| ==> before[k] in before;
      if p(n - 1) then before + [n - 1] else before
  }

  predicate Ascending(s: seq<nat>) {
    forall i, j :: 0 <= i < j < |s| ==> s[i] < s[j]
  }
}
