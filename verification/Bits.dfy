/** Powers of two and bitwise OR on natural numbers. */
module Bits {

  function Pow2(k: nat): (r: nat)
    ensures r > 0
  {
    if k == 0 then 1 else 2 * Pow2(k - 1)
  }

  /** `n` is `2^k` for some `k >= low`. */
  ghost predicate IsPow2From(n: nat, low: nat) {
    exists k: nat :: k >= low && n == Pow2(k)
  }

  lemma {:induction false} Pow2Split(j: nat, k: nat)
    requires j <= k
    ensures Pow2(k) == Pow2(j) * Pow2(k - j)
  {
    if j < k {
      Pow2Split(j, k - 1);
    }
  }

  lemma {:induction false} MultipleOf(x: nat, a: nat, m: nat)
    requires a > 0 && x == a * m
    ensures x % a == 0
  {
    ModUnique(x, a, m, 0);
  }

  lemma {:induction false} MulAtLeast(a: int, d: int)
    requires a > 0 && d > 0
    ensures a * d >= a
    decreases d
  {
    if d > 1 {
      MulAtLeast(a, d - 1);
      assert a * d == a * (d - 1) + a;
    }
  }

  lemma {:induction false} SmallMultiple(a: int, d: int)
    requires a > 0 && a * d < a && a * d > 0 - a
    ensures d == 0
  {
    assert a * (0 - d) == 0 - a * d;
    if d > 0 {
      MulAtLeast(a, d);
    } else if d < 0 {
      MulAtLeast(a, 0 - d);
    }
  }

  lemma {:induction false} Distribute(a: int, q: int, p: int)
    ensures a * (q - p) == a * q - a * p
  {
  }

  lemma {:induction false} ModUnique(x: nat, a: nat, q: nat, r: nat)
    requires a > 0 && x == a * q + r && r < a
    ensures x % a == r && x / a == q
  {
    var q', r' := x / a, x % a;
    assert x == a * q' + r';
    Distribute(a, q, q');
    SmallMultiple(a, q - q');
  }

  /** If `b` divides `a` and `a` divides `x` then `b` divides `x`. */
  lemma {:induction false} DividesTransitive(x: nat, a: nat, b: nat)
    requires a > 0 && b > 0 && x % a == 0 && a % b == 0
    ensures x % b == 0
  {
    var m, n := x / a, a / b;
    assert x == a * m && a == b * n;
    assert x == b * (n * m);
    MultipleOf(x, b, n * m);
  }

  lemma {:induction false} DividesSum(x: nat, y: nat, b: nat)
    requires b > 0 && x % b == 0 && y % b == 0
    ensures (x + y) % b == 0
  {
    assert x + y == b * (x / b + y / b);
    MultipleOf(x + y, b, x / b + y / b);
  }

  /** The smaller of two powers of two divides the larger. */
  lemma {:induction false} SmallerDivides(a: nat, b: nat)
    requires IsPow2From(a, 0) && IsPow2From(b, 0) && b <= a
    ensures b > 0 && a % b == 0
  {
    var j: nat :| a == Pow2(j);
    var k: nat :| b == Pow2(k);
    Pow2Grows(j, k);
    Pow2Split(k, j);
    MultipleOf(a, b, Pow2(j - k));
  }

  lemma {:induction false} Pow2Grows(j: nat, k: nat)
    ensures j < k ==> Pow2(j) < Pow2(k)
    decreases k
  {
    if j < k - 1 {
      Pow2Grows(j, k - 1);
    }
  }

  /** `a | b` */
  function Or(a: nat, b: nat): (r: nat)
    decreases a + b
  {
    if a == 0 then b
    else if b == 0 then a
    else 2 * Or(a / 2, b / 2) + (if a % 2 == 1 || b % 2 == 1 then 1 else 0)
  }

  /** Flag bits below `2^k` can be OR-ed into an address that is a multiple of `2^k`. */
  lemma {:induction false} OrIsSum(a: nat, b: nat, k: nat)
    requires a < Pow2(k) && b % Pow2(k) == 0
    ensures Or(a, b) == a + b
  {
    if a != 0 && b != 0 {
      var p, q := Pow2(k - 1), b / Pow2(k);
      assert b == 2 * p * q;
      assert b / 2 == p * q && b % 2 == 0;
      MultipleOf(b / 2, p, q);
      OrIsSum(a / 2, b / 2, k - 1);
    }
  }
}
