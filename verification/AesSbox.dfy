/** The S-box of FIPS 197, section 5.1.1, and its inverse, section 5.3.2. */
module AesSbox {
  import opened AesField

  /** The multiplicative inverse, with 0 for 0. */
  ghost function Inverse(x: bv8): (y: bv8)
    ensures if x == 0 then y == 0 else Mul(x, y) == 1
  {
    if x == 0 then 0
    else
      InverseExists(x);
      var y :| Mul(x, y) == 1;
      y
  }

  lemma InverseExists(x: bv8)
    requires x != 0
    ensures exists y :: Mul(x, y) == 1
  {
    hide *;
    var k := LogExists(x);
    PowerSum(k, 255 - k);
    PowerValues();
  }

  lemma InverseUnique(x: bv8, y: bv8)
    requires Mul(x, y) == 1
    ensures y == Inverse(x)
  {
    assert x != 0 by { ZeroTimes(y, 8); }
    hide Mul, Power, Shifted;
    var k := LogExists(x);
    MulPower(k, y);
    MulPower(k, Inverse(x));
    ShiftedInjective(k, y, Inverse(x));
  }

  lemma InverseOfPower(k: nat)
    requires k <= 255
    ensures Inverse(Power(k)) == Power(255 - k)
  {
    hide Mul, Power;
    PowerSum(k, 255 - k);
    PowerValues();
    InverseUnique(Power(k), Power(255 - k));
  }

  lemma InverseInvolution(x: bv8)
    ensures Inverse(Inverse(x)) == x
  {
    hide Power, Mul;
    if x != 0 {
      var k := LogExists(x);
      InverseOfPower(k);
      InverseOfPower(255 - k);
    }
  }

  /** Equation (5.1): bit i is b[i] + b[i+4] + b[i+5] + b[i+6] + b[i+7] + c[i], indices modulo 8,
      for the byte c = {63}. */
  function Affine(b: bv8): bv8 {
    var b0, b1, b2, b3 := b & 1, (b >> 1) & 1, (b >> 2) & 1, (b >> 3) & 1;
    var b4, b5, b6, b7 := (b >> 4) & 1, (b >> 5) & 1, (b >> 6) & 1, (b >> 7) & 1;
    (b0 ^ b4 ^ b5 ^ b6 ^ b7 ^ 1) |
    ((b1 ^ b5 ^ b6 ^ b7 ^ b0 ^ 1) << 1) |
    ((b2 ^ b6 ^ b7 ^ b0 ^ b1) << 2) |
    ((b3 ^ b7 ^ b0 ^ b1 ^ b2) << 3) |
    ((b4 ^ b0 ^ b1 ^ b2 ^ b3) << 4) |
    ((b5 ^ b1 ^ b2 ^ b3 ^ b4 ^ 1) << 5) |
    ((b6 ^ b2 ^ b3 ^ b4 ^ b5 ^ 1) << 6) |
    ((b7 ^ b3 ^ b4 ^ b5 ^ b6) << 7)
  }

  function Rotl(y: bv8): bv8 {
    (y << 1) | (y >> 7)
  }

  /** The inverse affine map. */
  function InvAffine(b: bv8): bv8 {
    Rotl(b) ^ Rotl(Rotl(Rotl(b))) ^ Rotl(Rotl(Rotl(Rotl(Rotl(Rotl(b)))))) ^ 0x05
  }

  lemma AffineByRotations(x: bv8)
    ensures var y1 := Rotl(x); var y2 := Rotl(y1); var y3 := Rotl(y2); var y4 := Rotl(y3);
            Affine(x) == x ^ y1 ^ y2 ^ y3 ^ (y4 ^ 0x63)
  {}

  lemma InvAffineAffine(x: bv8)
    ensures InvAffine(Affine(x)) == x
  {}

  lemma AffineInvAffine(x: bv8)
    ensures Affine(InvAffine(x)) == x
  {}

  ghost function SBox(x: bv8): bv8 {
    Affine(Inverse(x))
  }

  ghost function InvSBox(y: bv8): bv8 {
    Inverse(InvAffine(y))
  }

  /** InvSubBytes undoes SubBytes and the other way round: the S-box is a permutation. */
  lemma SBoxPermutes(x: bv8)
    ensures InvSBox(SBox(x)) == x
    ensures SBox(InvSBox(x)) == x
  {
    hide Affine, InvAffine, Inverse;
    InvAffineAffine(Inverse(x));
    InverseInvolution(x);
    InverseInvolution(InvAffine(x));
    AffineInvAffine(x);
  }
}
