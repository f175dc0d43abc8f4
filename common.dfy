/** Shared vocabulary: the error outcomes of the trader's Python code, trade
    directions, and the integer helpers every strategy uses. */
module Common {

  /** The Python exceptions the modelled code can raise. None of them is caught
      inside a tick: raising one aborts the whole `run` call. */
  datatype Error = KeyError | IndexError | AssertionError | TypeError

  datatype Option<T> = None | Some(value: T)

  /** A computation that either produces a value or raises one of the errors above. */
  datatype Result<T> = Success(value: T) | Failure(error: Error) {
    predicate IsFailure() { Failure? }

    function PropagateFailure<U>(): Result<U>
      requires Failure?
    {
      Failure(error)
    }

    function Extract(): T
      requires Success?
    {
      value
    }
  }

  /** The `side` argument of the Python code: 1 buys, -1 sells. */
  datatype Direction = Buy | Sell {
    /** `side * x` */
    function Apply(x: int): int {
      if Buy? then x else -x
    }

    /** `x` points the way of this direction (or is zero): `side * x >= 0`. */
    predicate Along(x: int) {
      if Buy? then x >= 0 else x <= 0
    }
  }

  function Abs(x: int): (r: nat)
    ensures r == x || r == -x
  {
    if x < 0 then -x else x
  }

  function Min(a: int, b: int): (r: int)
    ensures r <= a && r <= b && (r == a || r == b)
  {
    if a <= b then a else b
  }

  function Max(a: int, b: int): (r: int)
    ensures r >= a && r >= b && (r == a || r == b)
  {
    if a >= b then a else b
  }

  /** Python's `round(x)` and numpy's `np.round(x)`: nearest integer, ties to the
      even neighbour. Evaluated here in exact arithmetic. */
  function RoundHalfEven(x: real): (n: int)
    ensures -0.5 <= x - n as real <= 0.5
    ensures (x - n as real == 0.5 || n as real - x == 0.5) ==> n % 2 == 0
  {
    var f := x.Floor;
    var d := x - f as real;
    if d < 0.5 then f
    else if d > 0.5 then f + 1
    else if f % 2 == 0 then f
    else f + 1
  }

  /** The rounding is symmetric about zero, so `-round(x) == round(-x)`. */
  lemma RoundHalfEvenOdd(x: real)
    ensures RoundHalfEven(-x) == -RoundHalfEven(x)
  {
  }

  /** Rounding never moves a non-negative value below zero. */
  lemma RoundHalfEvenNonNegative(x: real)
    requires x >= 0.0
    ensures RoundHalfEven(x) >= 0
  {
  }
}
