/**
 * JavaScript integer arithmetic that differs from Dafny's.
 * Dafny's `%` is Euclidean; JavaScript's `%` truncates toward zero, so its
 * result takes the sign of the dividend.
 */
module JsNumber {

  function Abs(n: int): nat { if n < 0 then -n else n }

  /** `Math.trunc(a / n)`: the quotient rounded toward zero. */
  function Quot(a: int, n: int): int
    requires n != 0
  {
    var q := if a >= 0 then a / Abs(n) else -((-a) / Abs(n));
    if n < 0 then -q else q
  }

  /**
   * `a % n` as JavaScript evaluates it on integers: what is left of `a` after taking
   * off the truncated quotient's multiple of `n`, smaller in magnitude than `n` and
   * with the sign of `a`.
   */
  function Rem(a: int, n: int): (r: int)
    requires n != 0
    ensures a == Quot(a, n) * n + r
    ensures Abs(r) < Abs(n)
    ensures a >= 0 ==> r >= 0
    ensures a < 0 ==> r <= 0
  {
    var m := Abs(n);
    var b := if a >= 0 then a else -a;
    assert b == m * (b / m) + b % m;
    if a >= 0 then a % m else -((-a) % m)
  }
}
