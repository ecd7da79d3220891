/** Python's `round(x, 3)` on exact reals: the nearest multiple of 1/1000,
    ties going to the even multiple. */
module Rounding {

  function Round3(x: real): (r: real)
    ensures -1.0 / 2000.0 <= r - x <= 1.0 / 2000.0
    ensures IsMilli(r)
    ensures !IsTie(x) ==> -1.0 / 2000.0 < r - x < 1.0 / 2000.0
    ensures IsTie(x) ==> (r * 1000.0).Floor % 2 == 0
  {
    var scaled := x * 1000.0;
    var n := scaled.Floor;
    var frac := scaled - n as real;
    var m := if frac < 0.5 then n
             else if frac > 0.5 then n + 1
             else if n % 2 == 0 then n
             else n + 1;
    assert (m as real / 1000.0) * 1000.0 == m as real;
    m as real / 1000.0
  }

  /** `x` lies exactly halfway between two multiples of 1/1000. */
  predicate IsTie(x: real) {
    x * 1000.0 - (x * 1000.0).Floor as real == 0.5
  }

  /** `x` has at most three decimal places. */
  predicate IsMilli(x: real) {
    (x * 1000.0).Floor as real == x * 1000.0
  }

  /** A value that already has three decimal places is left as it is. */
  lemma Round3Exact(x: real)
    requires IsMilli(x)
    ensures Round3(x) == x
  {
    var n := (x * 1000.0).Floor;
    assert x * 1000.0 - n as real == 0.0;
    assert n as real / 1000.0 == x;
  }
}
