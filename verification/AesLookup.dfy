/** The table look-ups the key schedule and the rounds are made of, and what each of them
    computes on columns once the tables are generated. */
module AesLookup {
  import opened Bytes
  import opened AesField
  import opened AesSbox
  import opened AesWord
  import opened AesMix
  import opened AesCipher
  import opened AesTables

  /** FSb of byte 0 of y0, byte 1 of y1, byte 2 of y2 and byte 3 of y3, as one word. */
  function SubShifts(t: Tables, y0: bv32, y1: bv32, y2: bv32, y3: bv32): bv32
    requires t.Shape()
    reads t.FSb
  {
    Shifts(t.FSb[Ix(Byte0(y0))], t.FSb[Ix(Byte1(y1))], t.FSb[Ix(Byte2(y2))], t.FSb[Ix(Byte3(y3))])
  }

  function InvSubShifts(t: Tables, y0: bv32, y1: bv32, y2: bv32, y3: bv32): bv32
    requires t.Shape()
    reads t.RSb
  {
    Shifts(t.RSb[Ix(Byte0(y0))], t.RSb[Ix(Byte1(y1))], t.RSb[Ix(Byte2(y2))], t.RSb[Ix(Byte3(y3))])
  }

  /** SubWord of RotWord of w, as the key schedule reads it. */
  function SubRotated(t: Tables, w: bv32): bv32
    requires t.Shape()
    reads t.FSb
  {
    Shifts(t.FSb[Ix(Byte1(w))], t.FSb[Ix(Byte2(w))], t.FSb[Ix(Byte3(w))], t.FSb[Ix(Byte0(w))])
  }

  /** The four look-ups of one output word of AES_FROUND. */
  function ForwardSum(t: Tables, y0: bv32, y1: bv32, y2: bv32, y3: bv32): bv32
    requires t.Shape()
    reads t.FT0, t.FT1, t.FT2, t.FT3
  {
    Xor(Xor(t.FT0[Ix(Byte0(y0))], t.FT1[Ix(Byte1(y1))]), Xor(t.FT2[Ix(Byte2(y2))], t.FT3[Ix(Byte3(y3))]))
  }

  /** The four look-ups of one output word of AES_RROUND. */
  function ReverseSum(t: Tables, y0: bv32, y1: bv32, y2: bv32, y3: bv32): bv32
    requires t.Shape()
    reads t.RT0, t.RT1, t.RT2, t.RT3
  {
    Xor(Xor(t.RT0[Ix(Byte0(y0))], t.RT1[Ix(Byte1(y1))]), Xor(t.RT2[Ix(Byte2(y2))], t.RT3[Ix(Byte3(y3))]))
  }

  /** The bytes of a packed column. */
  lemma BytesOfWord(c: Col)
    ensures Byte0(Word(c)) == c.b0 && Byte1(Word(c)) == c.b1 && Byte2(Word(c)) == c.b2 && Byte3(Word(c)) == c.b3
  {
    hide Word, Byte0, Byte1, Byte2, Byte3;
    BytesWord(c);
  }

  lemma FSbAt(t: Tables, b: bv8)
    requires t.Ready()
    ensures t.FSb[Ix(b)] == SBox(b) && t.RSb[Ix(b)] == InvSBox(b)
  {
    hide SBox, InvSBox, Ix, ByteOf, Forward, Reverse;
    IxByte(b);
  }

  lemma SubShiftsIs(t: Tables, a: Col, b: Col, c: Col, d: Col)
    requires t.Ready()
    ensures SubShifts(t, Word(a), Word(b), Word(c), Word(d)) == Word(SubColumn(Col(a.b0, b.b1, c.b2, d.b3)))
    ensures InvSubShifts(t, Word(a), Word(b), Word(c), Word(d)) == Word(InvSubColumn(Col(a.b0, b.b1, c.b2, d.b3)))
  {
    FSbAt(t, a.b0); FSbAt(t, b.b1); FSbAt(t, c.b2); FSbAt(t, d.b3);
    hide SBox, InvSBox, Ix, Word, Byte0, Byte1, Byte2, Byte3, Shifts, t.Ready;
    BytesOfWord(a); BytesOfWord(b); BytesOfWord(c); BytesOfWord(d);
    ShiftsIsWord(SBox(a.b0), SBox(b.b1), SBox(c.b2), SBox(d.b3));
    ShiftsIsWord(InvSBox(a.b0), InvSBox(b.b1), InvSBox(c.b2), InvSBox(d.b3));
  }

  lemma SubRotatedIs(t: Tables, c: Col)
    requires t.Ready()
    ensures SubRotated(t, Word(c)) == Word(SubColumn(Col(c.b1, c.b2, c.b3, c.b0)))
  {
    FSbAt(t, c.b0); FSbAt(t, c.b1); FSbAt(t, c.b2); FSbAt(t, c.b3);
    hide SBox, InvSBox, Ix, Word, Byte0, Byte1, Byte2, Byte3, Shifts, t.Ready;
    BytesOfWord(c);
    ShiftsIsWord(SBox(c.b1), SBox(c.b2), SBox(c.b3), SBox(c.b0));
  }

  /** The four contributions of a shifted column add up to its MixColumn. */
  lemma ContributionsAddUp(k: Col, s: Col)
    ensures AddCol(AddCol(Contribution(k, s.b0), Down(Contribution(k, s.b1))),
                   AddCol(Down(Down(Contribution(k, s.b2))), Down(Down(Down(Contribution(k, s.b3))))))
         == Circulant(k, s)
  {
    hide Mul, Add;
    RotatedRow(k, s.b0, s.b1, s.b2, s.b3);
    RotatedRow(k, s.b1, s.b2, s.b3, s.b0);
    RotatedRow(k, s.b2, s.b3, s.b0, s.b1);
    RotatedRow(Col(k.b3, k.b0, k.b1, k.b2), s.b0, s.b1, s.b2, s.b3);
    RotatedRow(Col(k.b3, k.b0, k.b1, k.b2), s.b1, s.b2, s.b3, s.b0);
    RotatedRow(Col(k.b2, k.b3, k.b0, k.b1), s.b0, s.b1, s.b2, s.b3);
  }

  /** Column 0 of the circulant matrix k, times x. */
  function Contribution(k: Col, x: bv8): Col {
    Col(Mul(k.b0, x), Mul(k.b3, x), Mul(k.b2, x), Mul(k.b1, x))
  }

  lemma TableColumns(x: bv8)
    ensures ForwardColumn(x) == Contribution(MIX, SBox(x))
    ensures ReverseColumn(x) == Contribution(INV_MIX, InvSBox(x))
  {
    OneTimes(SBox(x));
    hide Mul, SBox, InvSBox;
  }

  lemma FourWords(a: Col, b: Col, c: Col, d: Col)
    ensures Xor(Xor(Word(a), Word(b)), Xor(Word(c), Word(d))) == Word(AddCol(AddCol(a, b), AddCol(c, d)))
  {
    hide Word, AddCol, Xor;
    XorWords(a, b);
    XorWords(c, d);
    XorWords(AddCol(a, b), AddCol(c, d));
  }

  lemma DownByUpTo3(c: Col)
    ensures DownBy(0, c) == c && DownBy(1, c) == Down(c)
    ensures DownBy(2, c) == Down(Down(c)) && DownBy(3, c) == Down(Down(Down(c)))
  {}

  lemma ForwardAt(t: Tables, b: bv8)
    requires t.Ready()
    ensures var c := ForwardColumn(b);
            && t.FT0[Ix(b)] == Word(c) && t.FT1[Ix(b)] == Word(Down(c))
            && t.FT2[Ix(b)] == Word(Down(Down(c))) && t.FT3[Ix(b)] == Word(Down(Down(Down(c))))
  {
    hide Ix, ByteOf, ForwardColumn, ReverseColumn, Word, Down, SBox, InvSBox, Reverse, DownBy;
    IxByte(b);
    DownByUpTo3(ForwardColumn(b));
  }

  lemma ReverseAt(t: Tables, b: bv8)
    requires t.Ready()
    ensures var c := ReverseColumn(b);
            && t.RT0[Ix(b)] == Word(c) && t.RT1[Ix(b)] == Word(Down(c))
            && t.RT2[Ix(b)] == Word(Down(Down(c))) && t.RT3[Ix(b)] == Word(Down(Down(Down(c))))
  {
    hide Ix, ByteOf, ForwardColumn, ReverseColumn, Word, Down, SBox, InvSBox, Forward, DownBy;
    IxByte(b);
    DownByUpTo3(ReverseColumn(b));
  }

  /** The T-table sum is SubBytes, ShiftRows and MixColumns for one output column. */
  lemma ForwardSumIs(t: Tables, a: Col, b: Col, c: Col, d: Col)
    requires t.Ready()
    ensures ForwardSum(t, Word(a), Word(b), Word(c), Word(d)) == Word(MixColumn(SubColumn(Col(a.b0, b.b1, c.b2, d.b3))))
  {
    ForwardAt(t, a.b0); ForwardAt(t, b.b1); ForwardAt(t, c.b2); ForwardAt(t, d.b3);
    TableColumns(a.b0); TableColumns(b.b1); TableColumns(c.b2); TableColumns(d.b3);
    hide SBox, InvSBox, Ix, Word, Byte0, Byte1, Byte2, Byte3, Xor, AddCol, Circulant, Down, Contribution,
         ForwardColumn, ReverseColumn, t.Ready;
    BytesOfWord(a); BytesOfWord(b); BytesOfWord(c); BytesOfWord(d);
    ContributionsAddUp(MIX, SubColumn(Col(a.b0, b.b1, c.b2, d.b3)));
    FourWords(ForwardColumn(a.b0), Down(ForwardColumn(b.b1)),
              Down(Down(ForwardColumn(c.b2))), Down(Down(Down(ForwardColumn(d.b3)))));
  }

  lemma ReverseSumIs(t: Tables, a: Col, b: Col, c: Col, d: Col)
    requires t.Ready()
    ensures ReverseSum(t, Word(a), Word(b), Word(c), Word(d))
         == Word(InvMixColumn(InvSubColumn(Col(a.b0, b.b1, c.b2, d.b3))))
  {
    ReverseAt(t, a.b0); ReverseAt(t, b.b1); ReverseAt(t, c.b2); ReverseAt(t, d.b3);
    TableColumns(a.b0); TableColumns(b.b1); TableColumns(c.b2); TableColumns(d.b3);
    hide SBox, InvSBox, Ix, Word, Byte0, Byte1, Byte2, Byte3, Xor, AddCol, Circulant, Down, Contribution,
         ForwardColumn, ReverseColumn, t.Ready;
    BytesOfWord(a); BytesOfWord(b); BytesOfWord(c); BytesOfWord(d);
    ContributionsAddUp(INV_MIX, InvSubColumn(Col(a.b0, b.b1, c.b2, d.b3)));
    FourWords(ReverseColumn(a.b0), Down(ReverseColumn(b.b1)),
              Down(Down(ReverseColumn(c.b2))), Down(Down(Down(ReverseColumn(d.b3)))));
  }

  /** AES_RT0(FSb[..]) ^ AES_RT1(FSb[..]) ^ AES_RT2(FSb[..]) ^ AES_RT3(FSb[..]) for the bytes of w. */
  function InvMixWord(t: Tables, w: bv32): bv32
    requires t.Shape()
    reads t.FSb, t.RT0, t.RT1, t.RT2, t.RT3
  {
    Xor(Xor(t.RT0[Ix(t.FSb[Ix(Byte0(w))])], t.RT1[Ix(t.FSb[Ix(Byte1(w))])]),
        Xor(t.RT2[Ix(t.FSb[Ix(Byte2(w))])], t.RT3[Ix(t.FSb[Ix(Byte3(w))])]))
  }

  /** Going through FSb cancels the inverse S-box inside the reverse tables. */
  lemma InvMixWordIs(t: Tables, c: Col)
    requires t.Ready()
    ensures InvMixWord(t, Word(c)) == Word(InvMixColumn(c))
  {
    FSbAt(t, c.b0); FSbAt(t, c.b1); FSbAt(t, c.b2); FSbAt(t, c.b3);
    var s := SubColumn(c);
    ReverseAt(t, s.b0); ReverseAt(t, s.b1); ReverseAt(t, s.b2); ReverseAt(t, s.b3);
    TableColumns(s.b0); TableColumns(s.b1); TableColumns(s.b2); TableColumns(s.b3);
    hide SBox, InvSBox, Ix, Word, Byte0, Byte1, Byte2, Byte3, Xor, AddCol, Circulant, Down, Contribution,
         ForwardColumn, ReverseColumn, t.Ready;
    BytesOfWord(c);
    SubColumnInverse(c);
    ContributionsAddUp(INV_MIX, c);
    FourWords(ReverseColumn(s.b0), Down(ReverseColumn(s.b1)),
              Down(Down(ReverseColumn(s.b2))), Down(Down(Down(ReverseColumn(s.b3)))));
  }
}
