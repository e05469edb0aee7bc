/** Stock types shared by every module, and Rust's 64-bit saturating arithmetic. */
module Prelude {
  datatype Option<+T> = None | Some(value: T) {
    function GetOr(default: T): T {
      match this
      case None => default
      case Some(v) => v
    }
  }

  datatype Result<+T, +E> = Ok(value: T) | Err(error: E)

  const U64_MAX: nat := 0xFFFF_FFFF_FFFF_FFFF

  type U64 = n: nat | n <= U64_MAX

  /** The largest 64-bit value not above `n`. */
  function Cap(n: nat): U64 { if n <= U64_MAX then n else U64_MAX }

  function SaturatingAdd(a: U64, b: U64): U64 { Cap(a + b) }

  function SaturatingMul(a: U64, b: U64): U64 { Cap(a * b) }

  /** The exact total of `f` over a list. */
  function SumBy<T>(xs: seq<T>, f: T -> nat): nat {
    if xs == [] then 0 else SumBy(xs[..|xs| - 1], f) + f(xs[|xs| - 1])
  }

  /** The running total a loop of `saturating_add` leaves behind. */
  function SaturatingTotal<T>(xs: seq<T>, f: T -> nat): U64 {
    if xs == [] then 0 else Cap(SaturatingTotal(xs[..|xs| - 1], f) + f(xs[|xs| - 1]))
  }

  lemma TotalAppend<T>(xs: seq<T>, x: T, f: T -> nat)
    ensures SaturatingTotal(xs + [x], f) == Cap(SaturatingTotal(xs, f) + f(x))
  {
    assert (xs + [x])[..|xs|] == xs;
  }

  /** Saturating at every step is the same as capping the exact total once. */
  lemma {:induction false} SaturatingTotalIsCappedSum<T>(xs: seq<T>, f: T -> nat)
    ensures SaturatingTotal(xs, f) == Cap(SumBy(xs, f))
  {
    if xs != [] {
      SaturatingTotalIsCappedSum(xs[..|xs| - 1], f);
    }
  }

  lemma {:induction false} SumByConcat<T>(xs: seq<T>, ys: seq<T>, f: T -> nat)
    ensures SumBy(xs + ys, f) == SumBy(xs, f) + SumBy(ys, f)
  {
    if ys == [] {
      assert xs + ys == xs;
    } else {
      SumByConcat(xs, ys[..|ys| - 1], f);
      assert (xs + ys)[..|xs + ys| - 1] == xs + ys[..|ys| - 1];
    }
  }

  /** Taking one occurrence out of a list. */
  lemma TakeOut<T>(xs: seq<T>, x: T) returns (left: seq<T>, right: seq<T>)
    requires x in xs
    ensures xs == left + [x] + right && multiset(left + right) == multiset(xs) - multiset{x}
  {
    var i :| 0 <= i < |xs| && xs[i] == x;
    left, right := xs[..i], xs[i + 1..];
    assert xs == left + [x] + right;
  }

  lemma SumByTakeOut<T>(left: seq<T>, x: T, right: seq<T>, f: T -> nat)
    ensures SumBy(left + [x] + right, f) == SumBy(left + right, f) + f(x)
  {
    SumByConcat(left + [x], right, f);
    SumByConcat(left, [x], f);
    SumByConcat(left, right, f);
    assert [x][..0] == [];
  }

  /** The exact total does not depend on the order of the summands. */
  lemma {:induction false} SumByPermutation<T>(xs: seq<T>, ys: seq<T>, f: T -> nat)
    requires multiset(xs) == multiset(ys)
    ensures SumBy(xs, f) == SumBy(ys, f)
  {
    if xs == [] {
      assert |multiset(xs)| == |multiset(ys)|;
    } else {
      hide SumBy;
      var n := |xs| - 1;
      assert xs == xs[..n] + [xs[n]] + [];
      assert xs[n] in multiset(ys);
      var left, right := TakeOut(ys, xs[n]);
      assert multiset(xs[..n]) == multiset(xs) - multiset{xs[n]};
      SumByPermutation(xs[..n], left + right, f);
      SumByTakeOut(left, xs[n], right, f);
      SumByTakeOut(xs[..n], xs[n], [], f);
      assert xs[..n] + [] == xs[..n];
    }
  }
}
