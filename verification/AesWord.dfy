/** Columns of the AES state and their little-endian packing into 32-bit words. */
module AesWord {
  import opened AesField

  /** One column of the state: four bytes, row 0 first. */
  datatype Col = Col(b0: bv8, b1: bv8, b2: bv8, b3: bv8)

  /** GET_UINT32_LE. */
  function Word(c: Col): bv32 {
    (c.b0 as bv32) | ((c.b1 as bv32) << 8) | ((c.b2 as bv32) << 16) | ((c.b3 as bv32) << 24)
  }

  function Byte0(w: bv32): bv8 { (w & 0xFF) as bv8 }
  function Byte1(w: bv32): bv8 { ((w >> 8) & 0xFF) as bv8 }
  function Byte2(w: bv32): bv8 { ((w >> 16) & 0xFF) as bv8 }
  function Byte3(w: bv32): bv8 { ((w >> 24) & 0xFF) as bv8 }

  /** The four bytes PUT_UINT32_LE stores. */
  function Bytes(w: bv32): Col {
    Col(Byte0(w), Byte1(w), Byte2(w), Byte3(w))
  }

  function Xor(a: bv32, b: bv32): bv32 {
    a ^ b
  }

  /** The macro ROTL8. */
  function Rotl8(w: bv32): bv32 {
    ((w << 8) & 0xFFFFFFFF) | (w >> 24)
  }

  function AddCol(c: Col, d: Col): Col {
    Col(Add(c.b0, d.b0), Add(c.b1, d.b1), Add(c.b2, d.b2), Add(c.b3, d.b3))
  }

  lemma BytesWord(c: Col)
    ensures Bytes(Word(c)) == c
  {
    var w := Word(c);
    assert Byte0(w) == c.b0;
    assert Byte1(w) == c.b1;
    assert Byte2(w) == c.b2;
    assert Byte3(w) == c.b3;
  }

  lemma XorWords(c: Col, d: Col)
    ensures Xor(Word(c), Word(d)) == Word(AddCol(c, d))
  {}

  lemma RotlWord(c: Col)
    ensures Rotl8(Word(c)) == Word(Col(c.b3, c.b0, c.b1, c.b2))
  {}

  /** The word built by xoring shifted bytes, as the table builder and the last round do. */
  function Shifts(b0: bv8, b1: bv8, b2: bv8, b3: bv8): bv32 {
    (b0 as bv32) ^ ((b1 as bv32) << 8) ^ ((b2 as bv32) << 16) ^ ((b3 as bv32) << 24)
  }

  lemma ShiftsIsWord(b0: bv8, b1: bv8, b2: bv8, b3: bv8)
    ensures Shifts(b0, b1, b2, b3) == Word(Col(b0, b1, b2, b3))
  {}

  lemma AddColLaws(a: Col, b: Col, c: Col)
    ensures AddCol(AddCol(a, b), c) == AddCol(a, AddCol(b, c))
    ensures AddCol(AddCol(a, b), b) == a
  {
    hide Add;
    AddLaws(a.b0, b.b0, c.b0); AddLaws(a.b1, b.b1, c.b1);
    AddLaws(a.b2, b.b2, c.b2); AddLaws(a.b3, b.b3, c.b3);
    AddTwice(a.b0, b.b0); AddTwice(a.b1, b.b1); AddTwice(a.b2, b.b2); AddTwice(a.b3, b.b3);
  }
}
