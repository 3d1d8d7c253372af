/** Small types and arithmetic shared by the other modules. */
module Prelude {

  datatype Option<+T> = None | Some(value: T)

  datatype Result<+T, +E> = Success(value: T) | Failure(error: E)

  function Min(a: real, b: real): real {
    if a <= b then a else b
  }

  function Max(a: real, b: real): real {
    if a >= b then a else b
  }

  function Clamp(x: real, low: real, high: real): real {
    Max(low, Min(high, x))
  }

  function Sum(a: seq<real>): real {
    if a == [] then 0.0 else Sum(a[..|a| - 1]) + a[|a| - 1]
  }

  ghost predicate Positive(a: seq<real>) {
    forall i :: 0 <= i < |a| ==> a[i] > 0.0
  }

  lemma {:induction false} SumPositive(a: seq<real>)
    requires Positive(a)
    ensures Sum(a) >= 0.0 && (a != [] ==> Sum(a) > 0.0)
  {
    if a != [] {
      SumPositive(a[..|a| - 1]);
    }
  }

  /** The least integer that is not below `x`. */
  function Ceil(x: real): (n: int)
    ensures x <= n as real < x + 1.0
  {
    -((-x).Floor)
  }

  /** Python's `round` to an integer: the nearest one, and the even one at a tie. */
  function RoundHalfEven(x: real): (n: int)
    ensures x - 0.5 <= n as real <= x + 0.5
  {
    var below := x.Floor;
    var rest := x - below as real;
    if rest < 0.5 || (rest == 0.5 && below % 2 == 0) then below else below + 1
  }

  /** `n` is nearest to `x`, and at a tie the even one of the two. */
  predicate IsNearest(n: int, x: real) {
    -0.5 <= n as real - x <= 0.5 && (n as real - x == 0.5 || x - n as real == 0.5 ==> n % 2 == 0)
  }

  lemma RoundHalfEvenIff(x: real, n: int)
    ensures n == RoundHalfEven(x) <==> IsNearest(n, x)
  {
  }

  /** Rounding keeps a value inside any interval with integer ends. */
  lemma RoundStaysWithin(x: real, low: int, high: int)
    requires low as real <= x <= high as real
    ensures low <= RoundHalfEven(x) <= high
  {
  }
}
