/** Division with a variable divisor, kept away from the rest. */
module ModArith {
  /** The phase whose turn comes after `k` turns have been taken. */
  function Turn(k: nat, n: nat): (r: nat)
    requires n > 0
    ensures r < n
  {
    k % n
  }

  lemma Scale(d: int, n: nat)
    requires d >= 0
    ensures d * n >= 0
    ensures (d + 1) * n == d * n + n && (-d - 1) * n == -(d * n) - n
  {
  }

  lemma Cancel(d: int, n: nat)
    requires d * n < n && -d * n < n
    ensures d == 0
  {
    if d >= 1 {
      Scale(d - 1, n);
      assert false;
    }
    if d <= -1 {
      Scale(-d - 1, n);
      assert false;
    }
  }

  lemma ModUnique(a: int, n: nat, q: int, r: int)
    requires n > 0 && a == q * n + r && 0 <= r < n
    ensures a % n == r && a / n == q
  {
    assert a == (a / n) * n + a % n;
    assert (a / n - q) * n == (a / n) * n - q * n;
    Cancel(a / n - q, n);
  }

  lemma TurnSucc(a: nat, n: nat)
    requires n > 0
    ensures Turn(a + 1, n) == (Turn(a, n) + 1) % n
    ensures Turn(a + 1, n) == if Turn(a, n) + 1 == n then 0 else Turn(a, n) + 1
    ensures (a + 1) / n == if Turn(a, n) + 1 == n then a / n + 1 else a / n
  {
    var q, r := a / n, a % n;
    assert a == q * n + r;
    if r + 1 == n {
      assert (q + 1) * n == q * n + n;
      ModUnique(a + 1, n, q + 1, 0);
      ModUnique(r + 1, n, 1, 0);
    } else {
      ModUnique(a + 1, n, q, r + 1);
      ModUnique(r + 1, n, 0, r + 1);
    }
  }

  lemma TurnsDistinct(a: nat, b: nat, n: nat)
    requires a < b < a + n
    ensures Turn(a, n) != Turn(b, n)
  {
    var q, p := a / n, b / n;
    assert a == q * n + a % n && b == p * n + b % n;
    assert (p - q) * n == p * n - q * n;
    if a % n == b % n {
      Cancel(p - q, n);
      assert false;
    }
  }

  lemma TurnBack(a: nat, n: nat)
    requires 0 < n <= a
    ensures Turn(a - n, n) == Turn(a, n)
  {
    assert (a / n - 1) * n == (a / n) * n - n;
    assert a - n == (a / n - 1) * n + a % n;
    ModUnique(a - n, n, a / n - 1, a % n);
  }

  lemma DivAtLeast(x: int, d: nat, q: int)
    requires d > 0 && q * d <= x
    ensures q <= x / d
  {
    var p := x / d;
    assert x == p * d + x % d;
    assert (q - p) * d == q * d - p * d;
    if p < q {
      Scale(q - p - 1, d);
      assert false;
    }
  }
}
