/** What several modules say of sequences. */
module Sequences {
  predicate EndsWith<T(==)>(s: seq<T>, end: seq<T>) {
    |s| >= |end| && s[|s| - |end|..] == end
  }

  ghost predicate Distinct<T(!new)>(xs: seq<T>) {
    forall i, j | 0 <= i < j < |xs| :: xs[i] != xs[j]
  }

  /** Each element where it first stands. */
  function Once<T(==, !new)>(xs: seq<T>): (kept: seq<T>)
    ensures forall x :: x in kept <==> x in xs
    ensures Distinct(kept)
  {
    if xs == [] then []
    else
      var (front, last) := (xs[..|xs| - 1], xs[|xs| - 1]);
      assert xs == front + [last];
      if last in Once(front) then Once(front) else Once(front) + [last]
  }
}
