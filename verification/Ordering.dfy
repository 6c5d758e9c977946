/** Strict orders, and the order of strings. */
module Ordering {

  ghost predicate StrictOrder<K(!new)>(less: (K, K) -> bool) {
    && (forall x :: !less(x, x))
    && (forall x, y, z :: less(x, y) && less(y, z) ==> less(x, z))
    && (forall x, y :: x != y ==> less(x, y) || less(y, x))
  }

  predicate IntLess(x: int, y: int) {
    x < y
  }

  /** Lexicographic order, as string comparison has it. */
  predicate StringLess(x: string, y: string)
    decreases |x|
  {
    y != "" && (x == "" || x[0] < y[0] || (x[0] == y[0] && StringLess(x[1..], y[1..])))
  }

  lemma {:induction false} StringLessIrreflexive(x: string)
    ensures !StringLess(x, x)
  {
    if x != "" {
      StringLessIrreflexive(x[1..]);
    }
  }

  lemma {:induction false} StringLessTransitive(x: string, y: string, z: string)
    requires StringLess(x, y) && StringLess(y, z)
    ensures StringLess(x, z)
  {
    if x != "" && x[0] == y[0] == z[0] {
      StringLessTransitive(x[1..], y[1..], z[1..]);
    }
  }

  lemma {:induction false} StringLessTotal(x: string, y: string)
    requires x != y
    ensures StringLess(x, y) || StringLess(y, x)
  {
    if x != "" && y != "" && x[0] == y[0] {
      assert x == [x[0]] + x[1..] && y == [y[0]] + y[1..];
      StringLessTotal(x[1..], y[1..]);
    }
  }

  lemma StringsOrdered()
    ensures StrictOrder(StringLess)
  {
    forall x: string
      ensures !StringLess(x, x)
    {
      StringLessIrreflexive(x);
    }
    forall x: string, y: string, z: string | StringLess(x, y) && StringLess(y, z)
      ensures StringLess(x, z)
    {
      StringLessTransitive(x, y, z);
    }
    forall x: string, y: string | x != y
      ensures StringLess(x, y) || StringLess(y, x)
    {
      StringLessTotal(x, y);
    }
  }

  /** A common beginning does not matter. */
  lemma {:induction false} StringLessAfter(common: string, x: string, y: string)
    ensures StringLess(common + x, common + y) <==> StringLess(x, y)
  {
    if common == "" {
      assert common + x == x && common + y == y;
    } else {
      assert (common + x)[1..] == common[1..] + x && (common + y)[1..] == common[1..] + y;
      StringLessAfter(common[1..], x, y);
    }
  }

  /** What follows two different beginnings of the same length does not matter. */
  lemma {:induction false} StringLessBefore(x: string, y: string, a: string, b: string)
    requires |x| == |y| && x != y
    ensures StringLess(x + a, y + b) <==> StringLess(x, y)
  {
    if x[0] == y[0] {
      assert x == [x[0]] + x[1..] && y == [y[0]] + y[1..];
      assert (x + a)[1..] == x[1..] + a && (y + b)[1..] == y[1..] + b;
      StringLessBefore(x[1..], y[1..], a, b);
    }
  }
}
