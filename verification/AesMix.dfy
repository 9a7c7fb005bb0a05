/** MixColumns and InvMixColumns (sections 5.1.3 and 5.3.3 of FIPS 197) as products with
    circulant matrices over GF(2^8). */
module AesMix {
  import opened AesField
  import opened AesWord

  /** The first row of the circulant matrix k times the column (a, b, c, d). */
  function Row(k: Col, a: bv8, b: bv8, c: bv8, d: bv8): bv8 {
    Sum4(Mul(k.b0, a), Mul(k.b1, b), Mul(k.b2, c), Mul(k.b3, d))
  }

  function Circulant(k: Col, c: Col): Col {
    Col(Row(k, c.b0, c.b1, c.b2, c.b3), Row(k, c.b1, c.b2, c.b3, c.b0),
        Row(k, c.b2, c.b3, c.b0, c.b1), Row(k, c.b3, c.b0, c.b1, c.b2))
  }

  const MIX := Col(0x02, 0x03, 0x01, 0x01)
  const INV_MIX := Col(0x0E, 0x0B, 0x0D, 0x09)

  function MixColumn(c: Col): Col {
    Circulant(MIX, c)
  }

  function InvMixColumn(c: Col): Col {
    Circulant(INV_MIX, c)
  }

  /** The product of two circulant matrices, by its first row. */
  function Product(k: Col, l: Col): Col {
    Col(Sum4(Mul(k.b0, l.b0), Mul(k.b1, l.b3), Mul(k.b2, l.b2), Mul(k.b3, l.b1)),
        Sum4(Mul(k.b0, l.b1), Mul(k.b1, l.b0), Mul(k.b2, l.b3), Mul(k.b3, l.b2)),
        Sum4(Mul(k.b0, l.b2), Mul(k.b1, l.b1), Mul(k.b2, l.b0), Mul(k.b3, l.b3)),
        Sum4(Mul(k.b0, l.b3), Mul(k.b1, l.b2), Mul(k.b2, l.b1), Mul(k.b3, l.b0)))
  }

  /** k times a row sum, spread over its four terms. */
  lemma RowTimes(k: bv8, l0: bv8, l1: bv8, l2: bv8, l3: bv8, a: bv8, b: bv8, c: bv8, d: bv8)
    ensures Mul(k, Row(Col(l0, l1, l2, l3), a, b, c, d))
         == Sum4(Mul(Mul(k, l0), a), Mul(Mul(k, l1), b), Mul(Mul(k, l2), c), Mul(Mul(k, l3), d))
  {
    hide Mul, Sum4;
    Sum4Mul(k, Mul(l0, a), Mul(l1, b), Mul(l2, c), Mul(l3, d));
    MulAssociates(k, l0, a);
    MulAssociates(k, l1, b);
    MulAssociates(k, l2, c);
    MulAssociates(k, l3, d);
  }

  /** Four sums of four, added up column by column. */
  lemma Transpose(p: Col, q: Col, r: Col, s: Col, a: bv8, b: bv8, c: bv8, d: bv8)
    ensures Sum4(Row(p, a, b, c, d), Row(q, a, b, c, d), Row(r, a, b, c, d), Row(s, a, b, c, d))
         == Row(Col(Sum4(p.b0, q.b0, r.b0, s.b0), Sum4(p.b1, q.b1, r.b1, s.b1),
                    Sum4(p.b2, q.b2, r.b2, s.b2), Sum4(p.b3, q.b3, r.b3, s.b3)), a, b, c, d)
  {
    RowAdd(p, q, a, b, c, d);
    RowAdd(r, s, a, b, c, d);
    RowAdd(AddCol(p, q), AddCol(r, s), a, b, c, d);
    hide Mul, Row, Add;
  }

  lemma RowAdd(p: Col, q: Col, a: bv8, b: bv8, c: bv8, d: bv8)
    ensures Add(Row(p, a, b, c, d), Row(q, a, b, c, d)) == Row(AddCol(p, q), a, b, c, d)
  {
    hide Mul, Add, Sum4;
    Sum4Add(Mul(p.b0, a), Mul(p.b1, b), Mul(p.b2, c), Mul(p.b3, d),
            Mul(q.b0, a), Mul(q.b1, b), Mul(q.b2, c), Mul(q.b3, d));
    MulDistributes(p.b0, q.b0, a, a);
    MulDistributes(p.b1, q.b1, b, b);
    MulDistributes(p.b2, q.b2, c, c);
    MulDistributes(p.b3, q.b3, d, d);
  }

  lemma RotatedRow(k: Col, a: bv8, b: bv8, c: bv8, d: bv8)
    ensures Row(k, b, c, d, a) == Row(Col(k.b3, k.b0, k.b1, k.b2), a, b, c, d)
  {
    hide Mul, Sum4;
    Sum4Rotate(Mul(k.b3, a), Mul(k.b0, b), Mul(k.b1, c), Mul(k.b2, d));
  }

  lemma ProductRow(k: Col, l: Col, a: bv8, b: bv8, c: bv8, d: bv8)
    ensures Row(k, Row(l, a, b, c, d), Row(l, b, c, d, a), Row(l, c, d, a, b), Row(l, d, a, b, c))
         == Row(Product(k, l), a, b, c, d)
  {
    hide Mul, Sum4;
    RotatedRow(l, a, b, c, d);
    RotatedRow(l, b, c, d, a);
    RotatedRow(l, c, d, a, b);
    var l' := Col(l.b3, l.b0, l.b1, l.b2);
    var l'' := Col(l.b2, l.b3, l.b0, l.b1);
    var l''' := Col(l.b1, l.b2, l.b3, l.b0);
    RotatedRow(l', a, b, c, d);
    RotatedRow(l', b, c, d, a);
    RotatedRow(l'', a, b, c, d);
    RowTimes(k.b0, l.b0, l.b1, l.b2, l.b3, a, b, c, d);
    RowTimes(k.b1, l.b3, l.b0, l.b1, l.b2, a, b, c, d);
    RowTimes(k.b2, l.b2, l.b3, l.b0, l.b1, a, b, c, d);
    RowTimes(k.b3, l.b1, l.b2, l.b3, l.b0, a, b, c, d);
    Transpose(Col(Mul(k.b0, l.b0), Mul(k.b0, l.b1), Mul(k.b0, l.b2), Mul(k.b0, l.b3)),
              Col(Mul(k.b1, l.b3), Mul(k.b1, l.b0), Mul(k.b1, l.b1), Mul(k.b1, l.b2)),
              Col(Mul(k.b2, l.b2), Mul(k.b2, l.b3), Mul(k.b2, l.b0), Mul(k.b2, l.b1)),
              Col(Mul(k.b3, l.b1), Mul(k.b3, l.b2), Mul(k.b3, l.b3), Mul(k.b3, l.b0)), a, b, c, d);
  }

  // products of the coefficients, each by evaluation
  lemma Mul0E1() ensures Mul(0x0E, 1) == 0x0E {}
  lemma Mul0E2() ensures Mul(0x0E, 2) == 0x1C {}
  lemma Mul0E3() ensures Mul(0x0E, 3) == 0x12 {}
  lemma Mul0B1() ensures Mul(0x0B, 1) == 0x0B {}
  lemma Mul0B2() ensures Mul(0x0B, 2) == 0x16 {}
  lemma Mul0B3() ensures Mul(0x0B, 3) == 0x1D {}
  lemma Mul0D1() ensures Mul(0x0D, 1) == 0x0D {}
  lemma Mul0D2() ensures Mul(0x0D, 2) == 0x1A {}
  lemma Mul0D3() ensures Mul(0x0D, 3) == 0x17 {}
  lemma Mul091() ensures Mul(0x09, 1) == 0x09 {}
  lemma Mul092() ensures Mul(0x09, 2) == 0x12 {}
  lemma Mul093() ensures Mul(0x09, 3) == 0x1B {}
  lemma Mul10E() ensures Mul(1, 0x0E) == 0x0E {}
  lemma Mul20E() ensures Mul(2, 0x0E) == 0x1C {}
  lemma Mul30E() ensures Mul(3, 0x0E) == 0x12 {}
  lemma Mul10B() ensures Mul(1, 0x0B) == 0x0B {}
  lemma Mul20B() ensures Mul(2, 0x0B) == 0x16 {}
  lemma Mul30B() ensures Mul(3, 0x0B) == 0x1D {}
  lemma Mul10D() ensures Mul(1, 0x0D) == 0x0D {}
  lemma Mul20D() ensures Mul(2, 0x0D) == 0x1A {}
  lemma Mul30D() ensures Mul(3, 0x0D) == 0x17 {}
  lemma Mul109() ensures Mul(1, 0x09) == 0x09 {}
  lemma Mul209() ensures Mul(2, 0x09) == 0x12 {}
  lemma Mul309() ensures Mul(3, 0x09) == 0x1B {}

  lemma InvMixTimesMix()
    ensures Product(INV_MIX, MIX) == Col(1, 0, 0, 0)
  {
    hide Mul;
    Mul0E1(); Mul0E2(); Mul0E3();
    Mul0B1(); Mul0B2(); Mul0B3();
    Mul0D1(); Mul0D2(); Mul0D3();
    Mul091(); Mul092(); Mul093();
  }

  lemma MixTimesInvMix()
    ensures Product(MIX, INV_MIX) == Col(1, 0, 0, 0)
  {
    hide Mul;
    Mul10E(); Mul20E(); Mul30E();
    Mul10B(); Mul20B(); Mul30B();
    Mul10D(); Mul20D(); Mul30D();
    Mul109(); Mul209(); Mul309();
  }

  lemma UnitRow(a: bv8, b: bv8, c: bv8, d: bv8)
    ensures Row(Col(1, 0, 0, 0), a, b, c, d) == a
  {
    OneTimes(a);
    ZeroTimes(b, 8); ZeroTimes(c, 8); ZeroTimes(d, 8);
    AddLaws(a, 0, 0);
    AddLaws(0, 0, 0);
    hide MulBits, Add;
  }

  lemma ProductIsUnit(k: Col, l: Col, c: Col)
    requires Product(k, l) == Col(1, 0, 0, 0)
    ensures Circulant(k, Circulant(l, c)) == c
  {
    hide Row, Product;
    ProductRow(k, l, c.b0, c.b1, c.b2, c.b3); UnitRow(c.b0, c.b1, c.b2, c.b3);
    ProductRow(k, l, c.b1, c.b2, c.b3, c.b0); UnitRow(c.b1, c.b2, c.b3, c.b0);
    ProductRow(k, l, c.b2, c.b3, c.b0, c.b1); UnitRow(c.b2, c.b3, c.b0, c.b1);
    ProductRow(k, l, c.b3, c.b0, c.b1, c.b2); UnitRow(c.b3, c.b0, c.b1, c.b2);
  }

  /** InvMixColumns and MixColumns are inverse to each other. */
  lemma MixInverse(c: Col)
    ensures InvMixColumn(MixColumn(c)) == c
    ensures MixColumn(InvMixColumn(c)) == c
  {
    hide Circulant, Product;
    InvMixTimesMix();
    MixTimesInvMix();
    ProductIsUnit(INV_MIX, MIX, c);
    ProductIsUnit(MIX, INV_MIX, c);
  }

  lemma RowOfSum(k: Col, a: bv8, b: bv8, c: bv8, d: bv8, a': bv8, b': bv8, c': bv8, d': bv8)
    ensures Row(k, Add(a, a'), Add(b, b'), Add(c, c'), Add(d, d')) == Add(Row(k, a, b, c, d), Row(k, a', b', c', d'))
  {
    hide Mul, Add, Sum4;
    MulDistributes(k.b0, k.b0, a, a');
    MulDistributes(k.b1, k.b1, b, b');
    MulDistributes(k.b2, k.b2, c, c');
    MulDistributes(k.b3, k.b3, d, d');
    Sum4Add(Mul(k.b0, a), Mul(k.b1, b), Mul(k.b2, c), Mul(k.b3, d),
            Mul(k.b0, a'), Mul(k.b1, b'), Mul(k.b2, c'), Mul(k.b3, d'));
  }

  /** Both maps are linear: this is what lets section 5.3.5 move AddRoundKey past InvMixColumns. */
  lemma CirculantLinear(k: Col, c: Col, d: Col)
    ensures Circulant(k, AddCol(c, d)) == AddCol(Circulant(k, c), Circulant(k, d))
  {
    hide Row, Add;
    RowOfSum(k, c.b0, c.b1, c.b2, c.b3, d.b0, d.b1, d.b2, d.b3);
    RowOfSum(k, c.b1, c.b2, c.b3, c.b0, d.b1, d.b2, d.b3, d.b0);
    RowOfSum(k, c.b2, c.b3, c.b0, c.b1, d.b2, d.b3, d.b0, d.b1);
    RowOfSum(k, c.b3, c.b0, c.b1, c.b2, d.b3, d.b0, d.b1, d.b2);
  }
}
