/** Sums and bags over a sequence, with the effect of replacing one element.
    Every counting argument of the pool rests on these. */
module Sums {

  function Sum<T>(xs: seq<T>, f: T -> int): int {
    if xs == [] then 0 else f(xs[0]) + Sum(xs[1..], f)
  }

  lemma {:induction false} SumUpdate<T>(xs: seq<T>, f: T -> int, i: nat, y: T)
    requires i < |xs|
    ensures Sum(xs[i := y], f) == Sum(xs, f) - f(xs[i]) + f(y)
  {
    if i == 0 {
      assert xs[0 := y][1..] == xs[1..];
    } else {
      SumUpdate(xs[1..], f, i - 1, y);
      assert xs[i := y][1..] == xs[1..][i - 1 := y];
    }
  }

  lemma {:induction false} SumIsZero<T>(xs: seq<T>, f: T -> int)
    requires forall x :: x in xs ==> f(x) == 0
    ensures Sum(xs, f) == 0
  {
    if xs != [] {
      SumIsZero(xs[1..], f);
    }
  }

  lemma {:induction false} SumAtLeast<T>(xs: seq<T>, f: T -> int, i: nat)
    requires i < |xs|
    requires forall x :: x in xs ==> f(x) >= 0
    ensures Sum(xs, f) >= f(xs[i])
  {
    if i == 0 {
      SumNonNegative(xs[1..], f);
    } else {
      SumAtLeast(xs[1..], f, i - 1);
    }
  }

  lemma {:induction false} SumNonNegative<T>(xs: seq<T>, f: T -> int)
    requires forall x :: x in xs ==> f(x) >= 0
    ensures Sum(xs, f) >= 0
  {
    if xs != [] {
      SumNonNegative(xs[1..], f);
    }
  }

  /** If f is pointwise at most g + h, so are the sums. */
  lemma {:induction false} SumDominated<T>(xs: seq<T>, f: T -> int, g: T -> int, h: T -> int)
    requires forall x :: x in xs ==> f(x) <= g(x) + h(x)
    ensures Sum(xs, f) <= Sum(xs, g) + Sum(xs, h)
  {
    if xs != [] {
      SumDominated(xs[1..], f, g, h);
    }
  }

  lemma {:induction false} SumOfSums<T>(xs: seq<T>, f: T -> int, g: T -> int, h: T -> int)
    requires forall x :: x in xs ==> f(x) + g(x) <= h(x)
    ensures Sum(xs, f) + Sum(xs, g) <= Sum(xs, h)
  {
    if xs != [] {
      SumOfSums(xs[1..], f, g, h);
    }
  }

  lemma {:induction false} SumAdds<T>(xs: seq<T>, f: T -> int, g: T -> int, h: T -> int)
    requires forall x :: x in xs ==> f(x) + g(x) == h(x)
    ensures Sum(xs, f) + Sum(xs, g) == Sum(xs, h)
  {
    if xs != [] {
      SumAdds(xs[1..], f, g, h);
    }
  }

  /** A positive sum has a positive term. */
  lemma {:induction false} SumPositive<T>(xs: seq<T>, f: T -> int) returns (i: nat)
    requires Sum(xs, f) > 0
    ensures i < |xs| && f(xs[i]) > 0
  {
    if f(xs[0]) > 0 {
      i := 0;
    } else {
      i := SumPositive(xs[1..], f);
      i := i + 1;
    }
  }
}
