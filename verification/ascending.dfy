/** Strictly ascending integer sequences: the row-order invariant of the parser's outputs. */
module Ascending {

  predicate StrictlyAscending(xs: seq<int>) {
    forall a, b :: 0 <= a < b < |xs| ==> xs[a] < xs[b]
  }

  /** Every element of xs occurs in ys. */
  predicate Within(xs: seq<int>, ys: seq<int>) {
    forall a :: 0 <= a < |xs| ==> xs[a] in ys
  }

  /** Dropping a shared least element keeps the inclusion. */
  lemma DropHead(xs: seq<int>, ys: seq<int>)
    requires StrictlyAscending(xs) && StrictlyAscending(ys)
    requires xs != [] && ys != [] && xs[0] == ys[0]
    requires Within(xs, ys)
    ensures Within(xs[1..], ys[1..])
  {
    forall a | 1 <= a < |xs|
      ensures xs[a] in ys[1..]
    {
      assert xs[a] in ys;
      var b :| 0 <= b < |ys| && ys[b] == xs[a];
      assert ys[1..][b - 1] == ys[b];
    }
    assert forall a :: 0 <= a < |xs[1..]| ==> xs[1..][a] == xs[a + 1];
  }

  /** A strictly ascending sequence is determined by its elements: two of them
      holding the same values are equal. */
  lemma {:induction false} SameElementsEqual(xs: seq<int>, ys: seq<int>)
    requires StrictlyAscending(xs) && StrictlyAscending(ys)
    requires Within(xs, ys) && Within(ys, xs)
    ensures xs == ys
    decreases |xs|
  {
    if xs != [] {
      assert xs[0] in ys;
    }
    if ys != [] {
      assert ys[0] in xs;
    }
    if xs != [] {
      assert xs[0] == ys[0] by {
        assert xs[0] in ys;
        assert ys[0] in xs;
      }
      DropHead(xs, ys);
      DropHead(ys, xs);
      SameElementsEqual(xs[1..], ys[1..]);
      assert xs == [xs[0]] + xs[1..] && ys == [ys[0]] + ys[1..];
    }
  }
}
