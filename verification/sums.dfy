/** Sums of integer sequences and all-zero sequences, as used by the aggregation slots. */
module Sums {

  /** The sum of all elements of `xs`. */
  function Sum(xs: seq<int>): int
  {
    if |xs| == 0 then 0 else xs[0] + Sum(xs[1..])
  }

  /** A sequence of `n` zeros: the initial value of every slot array. */
  function Zeros(n: nat): (z: seq<int>)
    ensures |z| == n
    ensures forall i :: 0 <= i < n ==> z[i] == 0
  {
    seq(n, _ => 0)
  }

  /** An all-zero sequence sums to zero. */
  lemma {:induction false} SumZeros(n: nat)
    ensures Sum(Zeros(n)) == 0
  {
    if n > 0 {
      assert Zeros(n)[1..] == Zeros(n - 1);
      SumZeros(n - 1);
    }
  }

  /** Adding `t` to one slot adds `t` to the sum and leaves the length alone. */
  lemma {:induction false} SumAddAt(xs: seq<int>, i: int, t: int)
    requires 0 <= i < |xs|
    ensures Sum(xs[i := xs[i] + t]) == Sum(xs) + t
  {
    if i > 0 {
      assert xs[i := xs[i] + t][1..] == xs[1..][i - 1 := xs[1..][i - 1] + t];
      SumAddAt(xs[1..], i - 1, t);
    }
  }
}
