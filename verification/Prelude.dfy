/** Shared vocabulary: options and finite sums over sequences. */
module Prelude {

  datatype Option<+T> = None | Some(value: T)

  function Max(a: int, b: int): int { if a < b then b else a }

  function Min(a: int, b: int): int { if a < b then a else b }

  /** The sum of `f` over the elements of `s`. */
  function Sum<T>(s: seq<T>, f: T -> int): int {
    if s == [] then 0 else f(s[0]) + Sum(s[1..], f)
  }

  lemma {:induction false} SumAppend<T>(a: seq<T>, b: seq<T>, f: T -> int)
    ensures Sum(a + b, f) == Sum(a, f) + Sum(b, f)
  {
    if a == [] {
      assert a + b == b;
    } else {
      assert (a + b)[1..] == a[1..] + b;
      SumAppend(a[1..], b, f);
    }
  }

  lemma {:induction false} SumSnoc<T>(a: seq<T>, x: T, f: T -> int)
    ensures Sum(a + [x], f) == Sum(a, f) + f(x)
  {
    SumAppend(a, [x], f);
    assert [x][1..] == [];
  }

  lemma {:induction false} SumAtMost<T>(s: seq<T>, f: T -> int, hi: int)
    requires forall x | x in s :: f(x) <= hi
    ensures Sum(s, f) <= hi * |s|
  {
    if s != [] {
      SumAtMost(s[1..], f, hi);
      assert hi * |s| == hi + hi * |s[1..]|;
    }
  }

  lemma {:induction false} SumNonNegative<T>(s: seq<T>, f: T -> int)
    requires forall x | x in s :: 0 <= f(x)
    ensures 0 <= Sum(s, f)
  {
    if s != [] {
      SumNonNegative(s[1..], f);
    }
  }

  /** A sum of non-negative terms is at least each of its terms. */
  lemma {:induction false} SumCovers<T>(s: seq<T>, f: T -> int, x: T)
    requires forall y | y in s :: 0 <= f(y)
    requires x in s
    ensures f(x) <= Sum(s, f)
  {
    if x == s[0] {
      SumNonNegative(s[1..], f);
    } else {
      SumCovers(s[1..], f, x);
    }
  }

  lemma {:induction false} SumUpdate<T>(s: seq<T>, f: T -> int, i: nat, x: T)
    requires i < |s|
    ensures Sum(s[i := x], f) == Sum(s, f) - f(s[i]) + f(x)
  {
    if i > 0 {
      assert s[i := x][1..] == s[1..][i - 1 := x];
      SumUpdate(s[1..], f, i - 1, x);
    } else {
      assert s[i := x][1..] == s[1..];
    }
  }

  /** A positive sum has a positive term. */
  lemma {:induction false} SumWitness<T>(s: seq<T>, f: T -> int)
    requires 0 < Sum(s, f)
    ensures exists x :: x in s && 0 < f(x)
  {
    if f(s[0]) <= 0 {
      SumWitness(s[1..], f);
    }
  }

  lemma {:induction false} SumMonotone<T>(s: seq<T>, f: T -> int, g: T -> int)
    requires forall x | x in s :: f(x) <= g(x)
    ensures Sum(s, f) <= Sum(s, g)
  {
    if s != [] {
      SumMonotone(s[1..], f, g);
    }
  }
}
