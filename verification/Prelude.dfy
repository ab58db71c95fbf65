/** Small vocabulary shared by the models: optional values and computations that may panic. */
module Prelude {

  datatype Option<+T> = None | Some(value: T)

  /** The outcome of code that either completes with a value or hits a panic. */
  datatype Step<+T> = Done(value: T) | Panic {
    predicate IsFailure() { Panic? }
    function PropagateFailure<U>(): Step<U>
      requires Panic?
    {
      Panic
    }
    function Extract(): T
      requires Done?
    {
      value
    }
  }

  /** The set {0, ..., n - 1}. */
  function Below(n: nat): (s: set<int>)
    ensures forall x :: x in s <==> 0 <= x < n
    ensures |s| == n
  {
    if n == 0 then {} else Below(n - 1) + {n - 1}
  }

  /** A subset is no larger. */
  lemma {:induction false} SubsetSize<T>(a: set<T>, b: set<T>)
    requires a <= b
    ensures |a| <= |b|
  {
    assert b == a + (b - a);
  }

  function Max(x: real, y: real): real { if x < y then y else x }
  function Min(x: real, y: real): real { if y < x then y else x }

  /** The rate of some bytes over a duration in microseconds. */
  function BitsPerSecond(bytes: nat, micros: int): real
    requires micros > 0
  {
    bytes as real * 8.0 * 1000000.0 / micros as real
  }
}
