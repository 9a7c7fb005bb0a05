/** Bytes as table indices, and byte strings the modules share. */
module Bytes {

  const TWO_32 := 0x1_0000_0000
  const TWO_64 := 0x1_0000_0000_0000_0000

  function Zeros(n: nat): (z: seq<bv8>)
    ensures |z| == n
  {
    seq(n, i => 0)
  }

  /** The chunks of a stream, joined. */
  function Concat<T>(chunks: seq<seq<T>>): seq<T> {
    if chunks == [] then [] else Concat(chunks[..|chunks| - 1]) + chunks[|chunks| - 1]
  }

  /** A byte as a table index. */
  function Ix(b: bv8): (i: nat)
    ensures i < 256
  {
    b as nat
  }

  /** A table index as a byte. */
  function ByteOf(i: nat): bv8
    requires i < 256
  {
    i as bv8
  }

  lemma IxByte(b: bv8)
    ensures ByteOf(Ix(b)) == b
  {}

  lemma NextIx(b: bv8)
    requires b != 255
    ensures Ix(b + 1) == Ix(b) + 1
  {}

  ghost function CountUp(i: nat): bv8 {
    if i == 0 then 0 else CountUp(i - 1) + 1
  }

  lemma {:induction false} IxCountUp(i: nat)
    requires i < 256
    ensures Ix(CountUp(i)) == i
  {
    hide Ix;
    if i == 0 {
      assert Ix(0) == 0 by { IxZero(); }
    } else {
      IxCountUp(i - 1);
      assert Ix(255) == 255 by { IxZero(); }
      NextIx(CountUp(i - 1));
    }
  }

  lemma IxZero()
    ensures Ix(0) == 0 && Ix(255) == 255
  {}

  lemma ByteIx(i: nat)
    requires i < 256
    ensures Ix(ByteOf(i)) == i
  {
    hide Ix, CountUp, ByteOf;
    IxCountUp(i);
    IxByte(CountUp(i));
  }

  lemma IxInjective(a: bv8, b: bv8)
    ensures Ix(a) == Ix(b) <==> a == b
  {
    hide Ix, ByteOf;
    IxByte(a);
    IxByte(b);
  }
}
