/** Quotients and remainders. */
module Division {

  lemma NextDivMod(n: nat, d: nat)
    requires d > 0
    ensures if n % d == d - 1 then (n + 1) / d == n / d + 1 && (n + 1) % d == 0
            else (n + 1) / d == n / d && (n + 1) % d == n % d + 1
  {
    var q, r := n / d, n % d;
    assert n == q * d + r;
    if r == d - 1 {
      assert n + 1 == (q + 1) * d;
      DivMod(n + 1, d, q + 1, 0);
    } else {
      DivMod(n + 1, d, q, r + 1);
    }
  }

  lemma DivMod(n: nat, d: nat, q: nat, r: nat)
    requires r < d && n == q * d + r
    ensures n / d == q && n % d == r
  {
    var a, b := n / d, n % d;
    assert n == a * d + b;
    assert (q - a) * d == q * d - a * d && (a - q) * d == a * d - q * d;
    if a < q {
      AtLeast(q - a, d);
    } else if a > q {
      AtLeast(a - q, d);
    }
  }

  lemma {:induction false} AtLeast(k: nat, d: nat)
    requires k > 0
    ensures k * d >= d
  {
    assert k * d == (k - 1) * d + d;
  }

  lemma Regroup(q: nat, d: nat, k: nat)
    ensures q * (d * k) == (q * k) * d
  {}

  lemma Distribute(x: nat, y: nat, d: nat)
    ensures x * d + y * d == (x + y) * d
  {}

  /** The remainder by a divisor of the modulus does not see the modulus. */
  lemma ModOfMod(n: nat, d: nat, k: nat)
    requires d > 0 && k > 0
    ensures d * k > 0 && n % (d * k) % d == n % d
  {
    AtLeast(k, d);
    Nested(n, d, d * k, k);
  }

  lemma Nested(n: nat, d: nat, m: nat, k: nat)
    requires d > 0 && m == d * k && m > 0
    ensures n % m % d == n % d
  {
    var q, r := n / m, n % m;
    var a, b := r / d, r % d;
    Parts(n, m);
    Parts(r, d);
    Regroup(q, d, k);
    Distribute(q * k, a, d);
    DivMod(n, d, q * k + a, b);
  }

  lemma Parts(n: nat, d: nat)
    requires d > 0
    ensures n == (n / d) * d + n % d && n % d < d
  {}

  /** The low 32 bits of n by their bytes. */
  lemma LowBytes(n: nat)
    ensures n % 256 + 0x100 * (n / 0x100 % 256) + 0x1_0000 * (n / 0x1_0000 % 256) + 0x100_0000 * (n / 0x100_0000 % 256)
         == n % 0x1_0000_0000
  {
    var a := n / 256;
    var b := a / 256;
    var c := b / 256;
    var d := c / 256;
    var r1 := 256 * (a % 256) + n % 256;
    var r2 := 0x1_0000 * (b % 256) + r1;
    var r3 := 0x100_0000 * (c % 256) + r2;
    DivMod(n, 0x1_0000, b, r1);
    DivMod(n, 0x100_0000, c, r2);
    DivMod(n, 0x1_0000_0000, d, r3);
  }
}
