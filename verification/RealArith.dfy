/** Rounding, and products of reals with whole numbers by repeated addition. */
module RealArith {
  /** C's `round`: to the nearest integer, halves away from zero. */
  function Round(x: real): (r: int)
    ensures x >= 0.0 ==> r as real - 0.5 <= x < r as real + 0.5
    ensures x <= 0.0 ==> r as real - 0.5 < x <= r as real + 0.5
  {
    if x >= 0.0 then (x + 0.5).Floor else -((-x + 0.5).Floor)
  }

  lemma {:induction false} Multiply(a: int, z: real, n: nat)
    requires a as real <= z
    ensures (a * n) as real <= z * n as real
  {
    if n > 0 {
      Multiply(a, z, n - 1);
      AddOnce(a, z, n);
    }
  }

  lemma {:induction false} MultiplyStrictly(a: int, z: real, n: nat)
    requires z < a as real && n > 0
    ensures z * n as real < (a * n) as real
  {
    AddOnce(a, z, n);
    if n > 1 {
      MultiplyStrictly(a, z, n - 1);
    } else {
      assert a * 0 == 0 && z * 0 as real == 0.0;
    }
  }

  lemma AddOnce(a: int, z: real, n: nat)
    requires n > 0
    ensures a * n == a * (n - 1) + a
    ensures z * n as real == z * (n - 1) as real + z
  {
    assert n as real == (n - 1) as real + 1.0;
  }
}
