/** Python's `round` on exact amounts. */
module Rounding {
  const MICRO := 1000000.0

  predicate IsMicro(x: real) {
    (x * MICRO).Floor as real == x * MICRO
  }

  function Dist(x: real, y: real): real {
    if x < y then y - x else x - y
  }

  /** `n` times half a millionth. */
  function Halves(n: nat): real {
    n as real * 0.0000005
  }

  /** At most `n` half millionths apart. */
  predicate Within(x: real, y: real, n: nat) {
    Dist(x, y) <= Halves(n)
  }

  lemma Triangle(z: real, x: real, y: real, c: real, n: nat)
    requires Within(x, y, n) && Within(z, x + c, 1)
    ensures Within(z, y + c, n + 1)
  {
  }

  /** The nearest integer, the even one when two are equally near. */
  function Nearest(y: real): (n: int)
    ensures Dist(n as real, y) <= 0.5 && (Dist(n as real, y) == 0.5 ==> n % 2 == 0)
    ensures y.Floor as real == y ==> n as real == y
  {
    var f := y.Floor;
    if y - f as real < 0.5 || (y - f as real == 0.5 && f % 2 == 0) then f else f + 1
  }

  /** `round(x, 6)`: the nearest multiple of a millionth, the even one when two are equally near. */
  function Round6(x: real): (r: real)
    ensures IsMicro(r) && Within(r, x, 1)
    ensures Dist(r, x) == Halves(1) ==> (r * MICRO).Floor % 2 == 0
    ensures IsMicro(x) ==> r == x
  {
    var n := Nearest(x * MICRO);
    assert (n as real / MICRO) * MICRO == n as real;
    n as real / MICRO
  }

  /** `round(x, 1)` */
  function Round1(x: real): (r: real)
    ensures Dist(r, x) <= 0.05
  {
    Nearest(x * 10.0) as real / 10.0
  }

  lemma MicroSum(x: real, y: real)
    requires IsMicro(x) && IsMicro(y)
    ensures IsMicro(x + y)
  {
    assert (x + y) * MICRO == ((x * MICRO).Floor + (y * MICRO).Floor) as real;
  }
}
