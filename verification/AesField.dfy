/** Arithmetic of GF(2^8), sections 4.1 and 4.2 of FIPS 197.
    The byte {03}, here the map `Triple`, is the generator whose powers the table builder of
    src/util/aes.c walks through; the lemmas below show that its order is 255 and that its
    powers are all the non-zero bytes, which is what makes the pow/log tables total. */
module AesField {
  import opened Bytes

  /** Addition in GF(2^8). */
  function Add(x: bv8, y: bv8): bv8 {
    x ^ y
  }

  /** Multiplication by {02}: the macro XTIME reduced to one byte. */
  function XTime(x: bv8): bv8 {
    (x << 1) ^ (if x & 0x80 != 0 then 0x1B else 0x00)
  }

  /** Multiplication by {03}. */
  function Triple(x: bv8): bv8 {
    Add(x, XTime(x))
  }

  /** x if the low bit of y is set, else 0. */
  function LowBitTimes(y: bv8, x: bv8): bv8 {
    if y & 1 != 0 then x else 0
  }

  function Half(y: bv8): bv8 {
    y >> 1
  }

  /** x times the polynomial made of the low n bits of y, by repeated XTime. */
  function MulBits(x: bv8, y: bv8, n: nat): bv8
    decreases n
  {
    if n == 0 then 0
    else Add(LowBitTimes(y, x), MulBits(XTime(x), Half(y), n - 1))
  }

  /** The product in GF(2^8). */
  function Mul(x: bv8, y: bv8): bv8 {
    MulBits(x, y, 8)
  }

  /** The n-th power of {03}. */
  function Power(n: nat): bv8 {
    if n == 0 then 1 else Triple(Power(n - 1))
  }

  /** {03}^n times y. */
  function Shifted(n: nat, y: bv8): bv8 {
    if n == 0 then y else Triple(Shifted(n - 1, y))
  }

  // ---------- addition ----------

  lemma AddLaws(a: bv8, b: bv8, c: bv8)
    ensures Add(Add(a, b), c) == Add(a, Add(b, c))
    ensures Add(a, b) == Add(b, a)
    ensures Add(a, 0) == a && Add(0, a) == a && Add(a, a) == 0
  {
    assert (a ^ b) ^ c == a ^ (b ^ c);
  }

  lemma AddTwice(a: bv8, b: bv8)
    ensures Add(Add(a, b), b) == a
  {
    hide Add;
    AddLaws(a, b, b);
    AddLaws(b, a, b);
  }

  lemma AddSwap(a: bv8, b: bv8, c: bv8, d: bv8)
    ensures Add(Add(a, b), Add(c, d)) == Add(Add(a, c), Add(b, d))
  {
    hide Add;
    AddLaws(a, b, Add(c, d));
    AddLaws(b, c, d);
    AddLaws(c, b, d);
    AddLaws(a, c, Add(b, d));
  }

  // ---------- XTime and Triple are linear ----------

  lemma XTimeAdd(x: bv8, y: bv8)
    ensures XTime(Add(x, y)) == Add(XTime(x), XTime(y))
  {
    assert (x ^ y) << 1 == (x << 1) ^ (y << 1);
    assert (x ^ y) & 0x80 == (x & 0x80) ^ (y & 0x80);
    assert x & 0x80 == 0 || x & 0x80 == 0x80;
    assert y & 0x80 == 0 || y & 0x80 == 0x80;
    if x & 0x80 != 0 {
      if y & 0x80 != 0 {} else {}
    } else {
      if y & 0x80 != 0 {} else {}
    }
  }

  lemma XTimeZero()
    ensures XTime(0) == 0 && Triple(0) == 0
  {}

  lemma TripleAdd(x: bv8, y: bv8)
    ensures Triple(Add(x, y)) == Add(Triple(x), Triple(y))
    ensures Triple(XTime(x)) == XTime(Triple(x))
  {
    hide XTime, Add;
    XTimeAdd(x, y);
    AddSwap(x, y, XTime(x), XTime(y));
    XTimeAdd(x, XTime(x));
  }

  lemma TripleInjective(x: bv8, y: bv8)
    requires Triple(x) == Triple(y)
    ensures x == y
  {}

  // ---------- multiplication by a power of {03} ----------

  lemma LowBitTriple(y: bv8, x: bv8)
    ensures LowBitTimes(y, Triple(x)) == Triple(LowBitTimes(y, x))
  {
    hide Triple;
    XTimeZero();
  }

  lemma {:induction false} MulBitsTriple(x: bv8, y: bv8, n: nat)
    ensures MulBits(Triple(x), y, n) == Triple(MulBits(x, y, n))
    decreases n
  {
    hide XTime, Add, Triple, Half, LowBitTimes;
    XTimeZero();
    if n > 0 {
      assert LowBitTimes(y, Triple(x)) == Triple(LowBitTimes(y, x)) by { LowBitTriple(y, x); }
      MulBitsTriple(XTime(x), Half(y), n - 1);
      TripleAdd(x, x);
      TripleAdd(LowBitTimes(y, x), MulBits(XTime(x), Half(y), n - 1));
    }
  }

  /** The bits of y above bit k are its bit k + 1 and those above that. */
  lemma TopBits(y: bv8)
    ensures var y1 := Half(y); var y2 := Half(y1); var y3 := Half(y2);
            && Add(LowBitTimes(y, 1), y & 254) == y
            && Add(LowBitTimes(y1, 2), y & 252) == y & 254
            && Add(LowBitTimes(y2, 4), y & 248) == y & 252
            && Add(LowBitTimes(y3, 8), y & 240) == y & 248
    ensures var y4 := Half(Half(Half(Half(y)))); var y5 := Half(y4); var y6 := Half(y5); var y7 := Half(y6);
            && Add(LowBitTimes(y4, 16), y & 224) == y & 240
            && Add(LowBitTimes(y5, 32), y & 192) == y & 224
            && Add(LowBitTimes(y6, 64), y & 128) == y & 192
            && Add(LowBitTimes(y7, 128), 0) == y & 128
  {}

  lemma OneTimesFrom(y: bv8, t1: bv8, t2: bv8, t3: bv8, t4: bv8, t5: bv8, t6: bv8, t7: bv8)
    requires XTime(1) == 2 && XTime(2) == 4 && XTime(4) == 8 && XTime(8) == 16
          && XTime(16) == 32 && XTime(32) == 64 && XTime(64) == 128
    requires var y1 := Half(y); var y2 := Half(y1); var y3 := Half(y2);
            && Add(LowBitTimes(y, 1), t1) == y && Add(LowBitTimes(y1, 2), t2) == t1
            && Add(LowBitTimes(y2, 4), t3) == t2 && Add(LowBitTimes(y3, 8), t4) == t3
    requires var y4 := Half(Half(Half(Half(y)))); var y5 := Half(y4); var y6 := Half(y5); var y7 := Half(y6);
            && Add(LowBitTimes(y4, 16), t5) == t4 && Add(LowBitTimes(y5, 32), t6) == t5
            && Add(LowBitTimes(y6, 64), t7) == t6 && Add(LowBitTimes(y7, 128), 0) == t7
    ensures Mul(1, y) == y
  {
    hide Add, XTime, Half, LowBitTimes;
    var y4 := Half(Half(Half(Half(y))));
    assert MulBits(128, Half(Half(Half(y4))), 1) == t7;
    assert MulBits(16, y4, 4) == t4;
  }

  lemma OneTimes(y: bv8)
    ensures Mul(1, y) == y
  {
    assert XTime(1) == 2 && XTime(2) == 4 && XTime(4) == 8 && XTime(8) == 16
        && XTime(16) == 32 && XTime(32) == 64 && XTime(64) == 128;
    hide *;
    TopBits(y);
    OneTimesFrom(y, y & 254, y & 252, y & 248, y & 240, y & 224, y & 192, y & 128);
  }

  lemma {:induction false} MulPower(n: nat, y: bv8)
    ensures Mul(Power(n), y) == Shifted(n, y)
  {
    hide Triple, MulBits;
    if n == 0 {
      OneTimes(y);
    } else {
      MulPower(n - 1, y);
      MulBitsTriple(Power(n - 1), y, 8);
    }
  }

  lemma {:induction false} ShiftedPower(n: nat, m: nat)
    ensures Shifted(n, Power(m)) == Power(n + m)
  {
    hide Triple;
    if n > 0 {
      ShiftedPower(n - 1, m);
    }
  }

  lemma {:induction false} ShiftedInjective(n: nat, x: bv8, y: bv8)
    requires Shifted(n, x) == Shifted(n, y)
    ensures x == y
  {
    hide Triple;
    if n > 0 {
      TripleInjective(Shifted(n - 1, x), Shifted(n - 1, y));
      ShiftedInjective(n - 1, x, y);
    }
  }

  /** Exponents add: the identity behind the macro MUL. */
  lemma PowerSum(n: nat, m: nat)
    ensures Mul(Power(n), Power(m)) == Power(n + m)
  {
    hide *;
    MulPower(n, Power(m));
    ShiftedPower(n, m);
  }

  // ---------- the order of {03} is 255 ----------

  // products of single bytes, each by evaluation
  lemma Mul0303() ensures Mul(0x03, 0x03) == 0x05 {}
  lemma Mul0505() ensures Mul(0x05, 0x05) == 0x11 {}
  lemma Mul1111() ensures Mul(0x11, 0x11) == 0x1A {}
  lemma Mul1A1A() ensures Mul(0x1A, 0x1A) == 0x5F {}
  lemma Mul5F5F() ensures Mul(0x5F, 0x5F) == 0xE5 {}
  lemma MulE5E5() ensures Mul(0xE5, 0xE5) == 0x4C {}
  lemma Mul1A11() ensures Mul(0x1A, 0x11) == 0xA1 {}
  lemma MulA105() ensures Mul(0xA1, 0x05) == 0x13 {}
  lemma Mul1303() ensures Mul(0x13, 0x03) == 0x35 {}
  lemma MulE55F() ensures Mul(0xE5, 0x5F) == 0x53 {}
  lemma Mul5305() ensures Mul(0x53, 0x05) == 0x04 {}
  lemma Mul0403() ensures Mul(0x04, 0x03) == 0x0C {}
  lemma Mul4C5F() ensures Mul(0x4C, 0x5F) == 0x83 {}
  lemma Mul8311() ensures Mul(0x83, 0x11) == 0x6B {}
  lemma Mul6B03() ensures Mul(0x6B, 0x03) == 0xBD {}
  lemma MulBDBD() ensures Mul(0xBD, 0xBD) == 0xBC {}
  lemma MulBCBD() ensures Mul(0xBC, 0xBD) == 0x01 {}

  lemma PowerOne()
    ensures Power(1) == 0x03
  {}

  /** A power from two smaller ones. */
  lemma PowerBySum(n: nat, m: nat, x: bv8, y: bv8, z: bv8)
    requires Power(n) == x && Power(m) == y && Mul(x, y) == z
    ensures Power(n + m) == z
  {
    hide *;
    PowerSum(n, m);
  }

  lemma PowersOfTwo()
    ensures Power(1) == 0x03 && Power(2) == 0x05 && Power(4) == 0x11 && Power(8) == 0x1A
    ensures Power(16) == 0x5F && Power(32) == 0xE5 && Power(64) == 0x4C
  {
    hide *;
    PowerOne();
    Mul0303();
    PowerBySum(1, 1, 0x03, 0x03, 0x05);
    Mul0505();
    PowerBySum(2, 2, 0x05, 0x05, 0x11);
    Mul1111();
    PowerBySum(4, 4, 0x11, 0x11, 0x1A);
    Mul1A1A();
    PowerBySum(8, 8, 0x1A, 0x1A, 0x5F);
    Mul5F5F();
    PowerBySum(16, 16, 0x5F, 0x5F, 0xE5);
    MulE5E5();
    PowerBySum(32, 32, 0xE5, 0xE5, 0x4C);
  }

  lemma PowerValues()
    ensures Power(255) == 1
    ensures Power(15) != 1 && Power(51) != 1 && Power(85) != 1
  {
    hide *;
    PowersOfTwo();
    Mul1A11();
    PowerBySum(8, 4, 0x1A, 0x11, 0xA1);
    MulA105();
    PowerBySum(12, 2, 0xA1, 0x05, 0x13);
    Mul1303();
    PowerBySum(14, 1, 0x13, 0x03, 0x35);
    MulE55F();
    PowerBySum(32, 16, 0xE5, 0x5F, 0x53);
    Mul5305();
    PowerBySum(48, 2, 0x53, 0x05, 0x04);
    Mul0403();
    PowerBySum(50, 1, 0x04, 0x03, 0x0C);
    Mul4C5F();
    PowerBySum(64, 16, 0x4C, 0x5F, 0x83);
    Mul8311();
    PowerBySum(80, 4, 0x83, 0x11, 0x6B);
    Mul6B03();
    PowerBySum(84, 1, 0x6B, 0x03, 0xBD);
    MulBDBD();
    PowerBySum(85, 85, 0xBD, 0xBD, 0xBC);
    MulBCBD();
    PowerBySum(170, 85, 0xBC, 0xBD, 0x01);
  }

  lemma FullPower()
    ensures Power(255) == 1
  {
    hide Power;
    PowerValues();
  }

  lemma {:induction false} PowerPeriod(d: nat, q: nat, r: nat)
    requires Power(d) == 1
    ensures Power(d * q + r) == Power(r)
    decreases q
  {
    hide Power;
    if q > 0 {
      PowerPeriod(d, q - 1, r);
      var m := d * (q - 1) + r;
      assert d * q + r == d + m;
      PowerSum(d, m);
      OneTimes(Power(m));
    }
  }

  lemma DivisorsOf255(d: nat, q: nat)
    requires 0 < d < 255 && d * q == 255
    ensures (exists k :: d * k == 15) || (exists k :: d * k == 51) || (exists k :: d * k == 85)
  {
    if d < 16 {
      assert d == 1 || d == 3 || d == 5 || d == 15;
      if d == 1 { assert d * 15 == 15; } else if d == 3 { assert d * 5 == 15; }
      else if d == 5 { assert d * 3 == 15; } else { assert d * 1 == 15; }
    } else {
      assert 16 * q <= d * q;
      assert q == 3 || q == 5 || q == 15;
      if q == 3 { assert d * 1 == 85; } else if q == 5 { assert d * 1 == 51; } else { assert d * 3 == 51; }
    }
  }

  lemma {:induction false} PowerNotOne(d: nat)
    requires 0 < d < 255
    ensures Power(d) != 1
  {
    PowerValues();
    hide Power;
    if Power(d) == 1 {
      var q, r := 255 / d, 255 % d;
      PowerPeriod(d, q, r);
      if r > 0 {
        PowerNotOne(r);
      } else {
        DivisorsOf255(d, q);
        if k :| d * k == 15 {
          PowerPeriod(d, k, 0);
        } else if k :| d * k == 51 {
          PowerPeriod(d, k, 0);
        } else {
          var k :| d * k == 85;
          PowerPeriod(d, k, 0);
        }
      }
    }
  }

  // ---------- every non-zero byte is a power of {03} ----------

  /** The indices of the first n powers, and the numbers 1..n. */
  ghost function PowerIx(k: nat): (i: nat)
    ensures i < 256
  {
    Ix(Power(k))
  }

  ghost function PowerIndices(n: nat): set<nat> {
    if n == 0 then {} else PowerIndices(n - 1) + {PowerIx(n - 1)}
  }

  ghost function UpTo(n: nat): set<nat> {
    if n == 0 then {} else UpTo(n - 1) + {n}
  }

  lemma {:induction false} UpToSize(n: nat)
    ensures |UpTo(n)| == n
    ensures forall i: nat :: i in UpTo(n) <==> 1 <= i <= n
  {
    if n > 0 {
      UpToSize(n - 1);
    }
  }

  lemma PowersDistinct(i: nat, j: nat)
    requires i < j < 255
    ensures Power(i) != Power(j)
  {
    hide Power;
    if Power(i) == Power(j) {
      ShiftedPower(i, j - i);
      ShiftedPower(i, 0);
      ShiftedInjective(i, Power(j - i), Power(0));
      PowerNotOne(j - i);
      assert Power(0) == 1 by { PowerZero(); }
    }
  }

  lemma PowerZero()
    ensures Power(0) == 1
  {}

  lemma {:induction false} PowerNonZero(n: nat)
    ensures Power(n) != 0
  {
    if n > 0 {
      PowerNonZero(n - 1);
      hide Triple;
      XTimeZero();
      if Triple(Power(n - 1)) == 0 {
        TripleInjective(Power(n - 1), 0);
      }
    }
  }

  lemma PowerIxDistinct(i: nat, j: nat)
    requires i < j < 255
    ensures PowerIx(i) != PowerIx(j)
  {
    hide Power, Ix;
    PowersDistinct(i, j);
    IxInjective(Power(i), Power(j));
  }

  lemma PowerIxRange(k: nat)
    ensures 1 <= PowerIx(k) <= 255
  {
    hide Power;
    PowerNonZero(k);
    IxInjective(Power(k), 0);
    IxZero();
  }

  lemma {:induction false} PowerIndicesOnly(n: nat, i: nat) returns (k: nat)
    requires i in PowerIndices(n)
    ensures k < n && i == PowerIx(k)
  {
    hide PowerIx;
    if i == PowerIx(n - 1) {
      k := n - 1;
    } else {
      k := PowerIndicesOnly(n - 1, i);
    }
  }

  lemma {:induction false} PowerIndicesSize(n: nat)
    requires n <= 255
    ensures |PowerIndices(n)| == n
    ensures forall i :: i in PowerIndices(n) ==> 1 <= i <= 255
  {
    hide PowerIx;
    if n > 0 {
      PowerIndicesSize(n - 1);
      PowerIxRange(n - 1);
      if PowerIx(n - 1) in PowerIndices(n - 1) {
        var k := PowerIndicesOnly(n - 1, PowerIx(n - 1));
        PowerIxDistinct(k, n - 1);
      }
    }
  }

  lemma Pigeonhole(s: set<nat>, n: nat, i: nat)
    requires |s| == n && forall j :: j in s ==> 1 <= j <= n
    requires 1 <= i <= n
    ensures i in s
  {
    UpToSize(n);
    assert UpTo(n) == s + (UpTo(n) - s);
  }

  /** Discrete logarithms exist: the pow/log tables reach every non-zero byte. */
  lemma LogExists(x: bv8) returns (k: nat)
    requires x != 0
    ensures k < 255 && Power(k) == x
  {
    hide Power, PowerIndices;
    PowerIndicesSize(255);
    IxInjective(x, 0);
    IxZero();
    Pigeonhole(PowerIndices(255), 255, Ix(x));
    k := PowerIndicesOnly(255, Ix(x));
    IxInjective(x, Power(k));
  }

  // ---------- the ring laws MixColumns needs ----------

  lemma {:induction false} ZeroTimes(y: bv8, n: nat)
    ensures MulBits(0, y, n) == 0
    decreases n
  {
    if n > 0 {
      ZeroTimes(Half(y), n - 1);
      XTimeZero();
      AddLaws(0, 0, 0);
    }
  }

  lemma {:induction false} MulBitsAdd(x: bv8, z: bv8, y: bv8, n: nat)
    ensures MulBits(Add(x, z), y, n) == Add(MulBits(x, y, n), MulBits(z, y, n))
    decreases n
  {
    AddLaws(0, 0, 0);
    hide XTime, Add, Half, LowBitTimes;
    if n > 0 {
      XTimeAdd(x, z);
      MulBitsAdd(XTime(x), XTime(z), Half(y), n - 1);
      LowBitAdd(y, x, z);
      AddSwap(LowBitTimes(y, x), LowBitTimes(y, z),
              MulBits(XTime(x), Half(y), n - 1), MulBits(XTime(z), Half(y), n - 1));
    }
  }

  lemma LowBitAdd(y: bv8, x: bv8, z: bv8)
    ensures LowBitTimes(y, Add(x, z)) == Add(LowBitTimes(y, x), LowBitTimes(y, z))
  {
    AddLaws(0, 0, 0);
    hide Add;
  }

  lemma {:induction false} ShiftedAdd(n: nat, x: bv8, y: bv8)
    ensures Shifted(n, Add(x, y)) == Add(Shifted(n, x), Shifted(n, y))
  {
    hide Add, Triple;
    if n > 0 {
      ShiftedAdd(n - 1, x, y);
      TripleAdd(Shifted(n - 1, x), Shifted(n - 1, y));
    }
  }

  lemma {:induction false} ShiftedShifted(n: nat, m: nat, y: bv8)
    ensures Shifted(n, Shifted(m, y)) == Shifted(n + m, y)
  {
    hide Triple;
    if n > 0 {
      ShiftedShifted(n - 1, m, y);
    }
  }

  /** Multiplication distributes over addition on both sides. */
  lemma MulDistributes(k: bv8, l: bv8, x: bv8, y: bv8)
    ensures Mul(Add(k, l), x) == Add(Mul(k, x), Mul(l, x))
    ensures Mul(k, Add(x, y)) == Add(Mul(k, x), Mul(k, y))
  {
    MulBitsAdd(k, l, x, 8);
    hide Add, MulBits, Power;
    if k == 0 {
      ZeroTimes(x, 8); ZeroTimes(y, 8); ZeroTimes(Add(x, y), 8);
      AddLaws(0, 0, 0);
    } else {
      var n := LogExists(k);
      MulPower(n, x); MulPower(n, y); MulPower(n, Add(x, y));
      ShiftedAdd(n, x, y);
    }
  }

  /** Multiplication is associative and commutative. */
  lemma MulAssociates(k: bv8, l: bv8, x: bv8)
    ensures Mul(k, Mul(l, x)) == Mul(Mul(k, l), x)
  {
    ZeroTimes(x, 8); ZeroTimes(Mul(l, x), 8); ZeroTimes(l, 8);
    hide MulBits, Power;
    if k != 0 {
      var n := LogExists(k);
      MulPower(n, l);
      MulPower(n, Mul(l, x));
      if l == 0 {
        ShiftedZero(n);
      } else {
        var m := LogExists(l);
        MulPower(m, x);
        ShiftedShifted(n, m, x);
        ShiftedPower(n, m);
        MulPower(n + m, x);
      }
    }
  }

  lemma {:induction false} ShiftedZero(n: nat)
    ensures Shifted(n, 0) == 0
  {
    XTimeZero();
    hide Triple;
    if n > 0 {
      ShiftedZero(n - 1);
    }
  }

  function Sum4(a: bv8, b: bv8, c: bv8, d: bv8): bv8 {
    Add(Add(a, b), Add(c, d))
  }

  lemma Sum4Add(a: bv8, b: bv8, c: bv8, d: bv8, a': bv8, b': bv8, c': bv8, d': bv8)
    ensures Add(Sum4(a, b, c, d), Sum4(a', b', c', d')) == Sum4(Add(a, a'), Add(b, b'), Add(c, c'), Add(d, d'))
  {
    hide Add;
    AddSwap(Add(a, b), Add(c, d), Add(a', b'), Add(c', d'));
    AddSwap(a, b, a', b');
    AddSwap(c, d, c', d');
  }

  lemma Sum4Mul(k: bv8, a: bv8, b: bv8, c: bv8, d: bv8)
    ensures Mul(k, Sum4(a, b, c, d)) == Sum4(Mul(k, a), Mul(k, b), Mul(k, c), Mul(k, d))
    ensures Mul(Sum4(a, b, c, d), k) == Sum4(Mul(a, k), Mul(b, k), Mul(c, k), Mul(d, k))
  {
    hide Add, Mul;
    MulDistributes(k, k, Add(a, b), Add(c, d));
    MulDistributes(k, k, a, b);
    MulDistributes(k, k, c, d);
    MulDistributes(Add(a, b), Add(c, d), k, k);
    MulDistributes(a, b, k, k);
    MulDistributes(c, d, k, k);
  }

  lemma Sum4Rotate(a: bv8, b: bv8, c: bv8, d: bv8)
    ensures Sum4(b, c, d, a) == Sum4(a, b, c, d)
  {
    hide Add;
    AddLaws(b, c, Add(d, a));
    AddLaws(d, a, a);
    AddSwap(b, c, a, d);
    AddLaws(a, b, b);
    AddLaws(c, d, d);
    AddLaws(Add(b, a), Add(c, d), 0);
  }
}
