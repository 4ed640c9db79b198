/** Facts about remainders that the solver does not find by itself. */
module Arith {

  lemma {:induction false} MulNonneg(a: int, b: int)
    requires a >= 0 && b >= 0
    ensures a * b >= 0
  {
  }

  lemma NonzeroMultiple(z: int, n: int)
    requires z != 0 && n >= 0
    ensures z * n >= n || z * n <= -n
  {
    if z > 0 {
      MulNonneg(z - 1, n);
      assert (z - 1) * n == z * n - n;
    } else {
      MulNonneg(-z - 1, n);
      assert (-z - 1) * n == -(z * n) - n;
    }
  }

  lemma MulMod(x: int, slot: nat, n: nat)
    requires slot < n
    ensures (x * n + slot) % n == slot
  {
    var y := (x * n + slot) / n;
    assert x * n + slot == y * n + (x * n + slot) % n;
    assert (y - x) * n == slot - (x * n + slot) % n;
    if y - x != 0 {
      NonzeroMultiple(y - x, n);
    }
  }

  lemma ModTrans(x: nat, d: nat, p: nat)
    requires d > 0 && p > 0 && x % d == 0 && d % p == 0
    ensures x % p == 0
  {
    var m, l := x / d, d / p;
    assert x == d * m && d == p * l;
    assert x == (l * m) * p by {
      assert (p * l) * m == (l * m) * p;
    }
    MulMod(l * m, 0, p);
  }
}
