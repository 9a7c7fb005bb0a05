/** The one-block example of FIPS 180-4 worked out: the digest of "abc". */
module Sha256Known {
  import opened Bytes
  import opened BlockHash
  import opened Sha256Spec

  // ---------- the message schedule of the example ----------

  function Abc(): seq<bv8> { [0x61, 0x62, 0x63] }

  function AbcBlock(): Block { [0x61, 0x62, 0x63, 0x80] + Zeros(52) + [0, 0, 0, 0, 0, 0, 0, 24] }

  lemma ByteValues() ensures ByteOf(0) == 0 && ByteOf(24) == 24 {}

  lemma LengthOfAbc()
    ensures Length64(24) == [0, 0, 0, 0, 0, 0, 0, 24]
  {
    hide ByteOf;
    ByteValues();
  }

  lemma AbcBytes()
    ensures Abc() + Padding(3) == AbcBlock()
  {
    hide Zeros, Length64;
    LengthOfAbc();
    assert Padding(3) == [0x80] + Zeros(52) + [0, 0, 0, 0, 0, 0, 0, 24];
  }

  lemma FirstWords()
    ensures FromBytes(0, 0, 0, 0) == 0 && FromBytes(0, 0, 0, 24) == 24
    ensures FromBytes(0x61, 0x62, 0x63, 0x80) == 0x61626380
  {}

  /** The block of the example, by its first sixteen words. */
  predicate Example(b: Block) {
    Schedule(b, 0) == 0x61626380 && Schedule(b, 15) == 24 && forall t :: 1 <= t < 15 ==> Schedule(b, t) == 0
  }

  lemma AbcIsExample()
    ensures Example(AbcBlock())
  {
    hide FromBytes;
    FirstWords();
  }

  lemma WordStep(b: Block, t: nat)
    requires t >= 16
    ensures Schedule(b, t) == Plus(Plus(Plus(SmallSigma1(Schedule(b, t - 2)), Schedule(b, t - 7)),
                                        SmallSigma0(Schedule(b, t - 15))),
                                   Schedule(b, t - 16))
  {
    hide Plus, SmallSigma0, SmallSigma1;
  }

  lemma Words16(b: Block)
    requires Example(b)
    ensures Schedule(b, 16) == 0x61626380 && Schedule(b, 17) == 0x000F0000
    ensures Schedule(b, 18) == 0x7DA86405 && Schedule(b, 19) == 0x600003C6
  {
    hide Schedule;
    WordStep(b, 16); WordStep(b, 17); WordStep(b, 18); WordStep(b, 19);
  }

  lemma Words20(b: Block)
    requires Example(b)
    ensures Schedule(b, 20) == 0x3E9D7B78 && Schedule(b, 21) == 0x0183FC00
    ensures Schedule(b, 22) == 0x12DCBFDB && Schedule(b, 23) == 0xE2E2C38E
  {
    hide Schedule;
    Words16(b);
    WordStep(b, 20); WordStep(b, 21); WordStep(b, 22); WordStep(b, 23);
  }

  lemma Words24(b: Block)
    requires Example(b)
    ensures Schedule(b, 24) == 0xC8215C1A && Schedule(b, 25) == 0xB73679A2
    ensures Schedule(b, 26) == 0xE5BC3909 && Schedule(b, 27) == 0x32663C5B
  {
    hide Schedule;
    Words16(b); Words20(b);
    WordStep(b, 24); WordStep(b, 25); WordStep(b, 26); WordStep(b, 27);
  }

  lemma Words28(b: Block)
    requires Example(b)
    ensures Schedule(b, 28) == 0x9D209D67 && Schedule(b, 29) == 0xEC8726CB
    ensures Schedule(b, 30) == 0x702138A4 && Schedule(b, 31) == 0xD3B7973B
  {
    hide Schedule;
    Words16(b); Words20(b); Words24(b);
    WordStep(b, 28); WordStep(b, 29); WordStep(b, 30); WordStep(b, 31);
  }

  lemma Words32(b: Block)
    requires Example(b)
    ensures Schedule(b, 32) == 0x93F5997F && Schedule(b, 33) == 0x3B68BA73
    ensures Schedule(b, 34) == 0xAFF4FFC1 && Schedule(b, 35) == 0xF10A5C62
  {
    hide Schedule;
    Words16(b); Words20(b); Words24(b); Words28(b);
    WordStep(b, 32); WordStep(b, 33); WordStep(b, 34); WordStep(b, 35);
  }

  lemma Words36(b: Block)
    requires Example(b)
    ensures Schedule(b, 36) == 0x0A8B3996 && Schedule(b, 37) == 0x72AF830A
    ensures Schedule(b, 38) == 0x9409E33E && Schedule(b, 39) == 0x24641522
  {
    hide Schedule;
    Words20(b); Words24(b); Words28(b); Words32(b);
    WordStep(b, 36); WordStep(b, 37); WordStep(b, 38); WordStep(b, 39);
  }

  lemma Words40(b: Block)
    requires Example(b)
    ensures Schedule(b, 40) == 0x9F47BF94 && Schedule(b, 41) == 0xF0A64F5A
    ensures Schedule(b, 42) == 0x3E246A79 && Schedule(b, 43) == 0x27333BA3
  {
    hide Schedule;
    Words24(b); Words28(b); Words32(b); Words36(b);
    WordStep(b, 40); WordStep(b, 41); WordStep(b, 42); WordStep(b, 43);
  }

  lemma Words44(b: Block)
    requires Example(b)
    ensures Schedule(b, 44) == 0x0C4763F2 && Schedule(b, 45) == 0x840ABF27
    ensures Schedule(b, 46) == 0x7A290D5D && Schedule(b, 47) == 0x065C43DA
  {
    hide Schedule;
    Words28(b); Words32(b); Words36(b); Words40(b);
    WordStep(b, 44); WordStep(b, 45); WordStep(b, 46); WordStep(b, 47);
  }

  lemma Words48(b: Block)
    requires Example(b)
    ensures Schedule(b, 48) == 0xFB3E89CB && Schedule(b, 49) == 0xCC7617DB
    ensures Schedule(b, 50) == 0xB9E66C34 && Schedule(b, 51) == 0xA9993667
  {
    hide Schedule;
    Words32(b); Words36(b); Words40(b); Words44(b);
    WordStep(b, 48); WordStep(b, 49); WordStep(b, 50); WordStep(b, 51);
  }

  lemma Words52(b: Block)
    requires Example(b)
    ensures Schedule(b, 52) == 0x84BADEDD && Schedule(b, 53) == 0xC21462BC
    ensures Schedule(b, 54) == 0x1487472C && Schedule(b, 55) == 0xB20F7A99
  {
    hide Schedule;
    Words36(b); Words40(b); Words44(b); Words48(b);
    WordStep(b, 52); WordStep(b, 53); WordStep(b, 54); WordStep(b, 55);
  }

  lemma Words56(b: Block)
    requires Example(b)
    ensures Schedule(b, 56) == 0xEF57B9CD && Schedule(b, 57) == 0xEBE6B238
    ensures Schedule(b, 58) == 0x9FE3095E && Schedule(b, 59) == 0x78BC8D4B
  {
    hide Schedule;
    Words40(b); Words44(b); Words48(b); Words52(b);
    WordStep(b, 56); WordStep(b, 57); WordStep(b, 58); WordStep(b, 59);
  }

  lemma Words60(b: Block)
    requires Example(b)
    ensures Schedule(b, 60) == 0xA43FCF15 && Schedule(b, 61) == 0x668B2FF8
    ensures Schedule(b, 62) == 0xEEABA2CC && Schedule(b, 63) == 0x12B1EDEB
  {
    hide Schedule;
    Words44(b); Words48(b); Words52(b); Words56(b);
    WordStep(b, 60); WordStep(b, 61); WordStep(b, 62); WordStep(b, 63);
  }

  // ---------- its 64 rounds ----------

  function After(b: Block, t: nat): Vars
    requires t <= 64
  {
    Rounds(INITIAL, b, K()[..t])
  }

  lemma Step(b: Block, t: nat)
    requires t < 64
    ensures After(b, 0) == INITIAL && After(b, t + 1) == Round(After(b, t), KAt(t), Schedule(b, t))
  {
    hide Round, Schedule, KAt;
    assert K()[..t + 1][..t] == K()[..t] && K()[..0] == [];
  }

  lemma Rounds0(b: Block)
    requires Example(b)
    ensures After(b, 8)
            == Vars(0x85A07B5F, 0xE5030380, 0x2B4209F5, 0x04409A6A,
                    0x0C657A79, 0x9B27A401, 0x714260AD, 0x43ADA245)
  {
    hide Schedule, After;
    Step(b, 0);
    assert After(b, 1).a == 0x5D6AEBCD && After(b, 1).e == 0xFA2A4622;
    Step(b, 1);
    assert After(b, 2).a == 0x5A6AD9AD && After(b, 2).e == 0x78CE7989;
    Step(b, 2);
    assert After(b, 3).a == 0xC8C347A7 && After(b, 3).e == 0xF92939EB;
    Step(b, 3);
    assert After(b, 4).a == 0xD550F666 && After(b, 4).e == 0x24E00850;
    Step(b, 4);
    assert After(b, 5).a == 0x04409A6A && After(b, 5).e == 0x43ADA245;
    Step(b, 5);
    assert After(b, 6).a == 0x2B4209F5 && After(b, 6).e == 0x714260AD;
    Step(b, 6);
    assert After(b, 7).a == 0xE5030380 && After(b, 7).e == 0x9B27A401;
    Step(b, 7);
  }

  lemma Rounds8(b: Block)
    requires Example(b)
    ensures After(b, 16)
            == Vars(0xB0FA238E, 0xC0645FDE, 0xD932EB16, 0x87912990,
                    0x07590DCD, 0x0B92F20C, 0x745A48DE, 0x1E578218)
  {
    hide Schedule, After;
    Rounds0(b);
    Step(b, 8);
    assert After(b, 9).a == 0x8E04ECB9 && After(b, 9).e == 0x32CA2D8C;
    Step(b, 9);
    assert After(b, 10).a == 0x8C87346B && After(b, 10).e == 0x1CC92596;
    Step(b, 10);
    assert After(b, 11).a == 0x4798A3F4 && After(b, 11).e == 0x436B23E8;
    Step(b, 11);
    assert After(b, 12).a == 0xF71FC5A9 && After(b, 12).e == 0x816FD6E9;
    Step(b, 12);
    assert After(b, 13).a == 0x87912990 && After(b, 13).e == 0x1E578218;
    Step(b, 13);
    assert After(b, 14).a == 0xD932EB16 && After(b, 14).e == 0x745A48DE;
    Step(b, 14);
    assert After(b, 15).a == 0xC0645FDE && After(b, 15).e == 0x0B92F20C;
    Step(b, 15);
  }

  lemma Rounds16(b: Block)
    requires Example(b)
    ensures After(b, 24)
            == Vars(0xC5D53D8D, 0xA7A3623F, 0xC2606D6D, 0x9DC68B63,
                    0xAA47C347, 0x49F5114A, 0xE1257970, 0x8ADA8930)
  {
    hide Schedule, After;
    Words16(b); Words20(b); Rounds8(b);
    Step(b, 16);
    assert After(b, 17).a == 0x21DA9A9B && After(b, 17).e == 0x8034229C;
    Step(b, 17);
    assert After(b, 18).a == 0xC2FBD9D1 && After(b, 18).e == 0x846EE454;
    Step(b, 18);
    assert After(b, 19).a == 0xFE777BBF && After(b, 19).e == 0xCC899961;
    Step(b, 19);
    assert After(b, 20).a == 0xE1F20C33 && After(b, 20).e == 0xB0638179;
    Step(b, 20);
    assert After(b, 21).a == 0x9DC68B63 && After(b, 21).e == 0x8ADA8930;
    Step(b, 21);
    assert After(b, 22).a == 0xC2606D6D && After(b, 22).e == 0xE1257970;
    Step(b, 22);
    assert After(b, 23).a == 0xA7A3623F && After(b, 23).e == 0x49F5114A;
    Step(b, 23);
  }

  lemma Rounds24(b: Block)
    requires Example(b)
    ensures After(b, 32)
            == Vars(0x73B33BF5, 0xEA992A22, 0xA0060B30, 0x363482C9,
                    0xBA591112, 0x0109AB3A, 0xADE79437, 0x6112A3B7)
  {
    hide Schedule, After;
    Words24(b); Words28(b); Rounds16(b);
    Step(b, 24);
    assert After(b, 25).a == 0x1C2C2838 && After(b, 25).e == 0x2823EF91;
    Step(b, 25);
    assert After(b, 26).a == 0xCDE8037D && After(b, 26).e == 0x14383D8E;
    Step(b, 26);
    assert After(b, 27).a == 0xB62EC4BC && After(b, 27).e == 0xC74C6516;
    Step(b, 27);
    assert After(b, 28).a == 0x77D37528 && After(b, 28).e == 0xEDFFBFF8;
    Step(b, 28);
    assert After(b, 29).a == 0x363482C9 && After(b, 29).e == 0x6112A3B7;
    Step(b, 29);
    assert After(b, 30).a == 0xA0060B30 && After(b, 30).e == 0xADE79437;
    Step(b, 30);
    assert After(b, 31).a == 0xEA992A22 && After(b, 31).e == 0x0109AB3A;
    Step(b, 31);
  }

  lemma Rounds32(b: Block)
    requires Example(b)
    ensures After(b, 40)
            == Vars(0x79EA687A, 0x6DC57A8A, 0x34DF1604, 0x41A65CB1,
                    0x1EFBC0A0, 0xF0781BC8, 0xA507A53D, 0x0772A26B)
  {
    hide Schedule, After;
    Words32(b); Words36(b); Rounds24(b);
    Step(b, 32);
    assert After(b, 33).a == 0x98E12507 && After(b, 33).e == 0x9CD9F5F6;
    Step(b, 33);
    assert After(b, 34).a == 0xFE604DF5 && After(b, 34).e == 0x59249DD3;
    Step(b, 34);
    assert After(b, 35).a == 0xA9A7738C && After(b, 35).e == 0x085F3833;
    Step(b, 35);
    assert After(b, 36).a == 0x65A0CFE4 && After(b, 36).e == 0xF4B002D6;
    Step(b, 36);
    assert After(b, 37).a == 0x41A65CB1 && After(b, 37).e == 0x0772A26B;
    Step(b, 37);
    assert After(b, 38).a == 0x34DF1604 && After(b, 38).e == 0xA507A53D;
    Step(b, 38);
    assert After(b, 39).a == 0x6DC57A8A && After(b, 39).e == 0xF0781BC8;
    Step(b, 39);
  }

  lemma Rounds40(b: Block)
    requires Example(b)
    ensures After(b, 48)
            == Vars(0x4172328D, 0xA14C14B0, 0x72AB4B91, 0x26628815,
                    0xFECF0BC6, 0xD57B94A9, 0xB7755DA1, 0xA80F11F0)
  {
    hide Schedule, After;
    Words40(b); Words44(b); Rounds32(b);
    Step(b, 40);
    assert After(b, 41).a == 0xD6670766 && After(b, 41).e == 0x26352D63;
    Step(b, 41);
    assert After(b, 42).a == 0xDF46652F && After(b, 42).e == 0x838B2711;
    Step(b, 42);
    assert After(b, 43).a == 0x17AA0DFE && After(b, 43).e == 0xDECD4715;
    Step(b, 43);
    assert After(b, 44).a == 0x9D4BAF93 && After(b, 44).e == 0xFDA24C2E;
    Step(b, 44);
    assert After(b, 45).a == 0x26628815 && After(b, 45).e == 0xA80F11F0;
    Step(b, 45);
    assert After(b, 46).a == 0x72AB4B91 && After(b, 46).e == 0xB7755DA1;
    Step(b, 46);
    assert After(b, 47).a == 0xA14C14B0 && After(b, 47).e == 0xD57B94A9;
    Step(b, 47);
  }

  lemma Rounds48(b: Block)
    requires Example(b)
    ensures After(b, 56)
            == Vars(0x38CC9913, 0x3EC45CDB, 0xF5702FDB, 0x101FD28F,
                    0x54CB266B, 0xE50E1B4F, 0x9F4787C3, 0x529E7D00)
  {
    hide Schedule, After;
    Words48(b); Words52(b); Rounds40(b);
    Step(b, 48);
    assert After(b, 49).a == 0x05757CEB && After(b, 49).e == 0xBD714038;
    Step(b, 49);
    assert After(b, 50).a == 0xF11BFAA8 && After(b, 50).e == 0x6E5C390C;
    Step(b, 50);
    assert After(b, 51).a == 0x7A0508A1 && After(b, 51).e == 0x52F1CCF7;
    Step(b, 51);
    assert After(b, 52).a == 0x886E7A22 && After(b, 52).e == 0x49231C1E;
    Step(b, 52);
    assert After(b, 53).a == 0x101FD28F && After(b, 53).e == 0x529E7D00;
    Step(b, 53);
    assert After(b, 54).a == 0xF5702FDB && After(b, 54).e == 0x9F4787C3;
    Step(b, 54);
    assert After(b, 55).a == 0x3EC45CDB && After(b, 55).e == 0xE50E1B4F;
    Step(b, 55);
  }

  lemma Rounds56(b: Block)
    requires Example(b)
    ensures After(b, 64)
            == Vars(0x506E3058, 0xD39A2165, 0x04D24D6C, 0xB85E2CE9,
                    0x5EF50F24, 0xFB121210, 0x948D25B6, 0x961F4894)
  {
    hide Schedule, After;
    Words56(b); Words60(b); Rounds48(b);
    Step(b, 56);
    assert After(b, 57).a == 0xFCD1887B && After(b, 57).e == 0x9B5E906C;
    Step(b, 57);
    assert After(b, 58).a == 0xC062D46F && After(b, 58).e == 0x7E44008E;
    Step(b, 58);
    assert After(b, 59).a == 0xFFB70472 && After(b, 59).e == 0x6D83BFC6;
    Step(b, 59);
    assert After(b, 60).a == 0xB6AE8FFF && After(b, 60).e == 0xB21BAD3D;
    Step(b, 60);
    assert After(b, 61).a == 0xB85E2CE9 && After(b, 61).e == 0x961F4894;
    Step(b, 61);
    assert After(b, 62).a == 0x04D24D6C && After(b, 62).e == 0x948D25B6;
    Step(b, 62);
    assert After(b, 63).a == 0xD39A2165 && After(b, 63).e == 0xFB121210;
    Step(b, 63);
  }

  lemma Sums()
    ensures AddVars(INITIAL, Vars(0x506E3058, 0xD39A2165, 0x04D24D6C, 0xB85E2CE9,
                                  0x5EF50F24, 0xFB121210, 0x948D25B6, 0x961F4894))
         == Vars(0xBA7816BF, 0x8F01CFEA, 0x414140DE, 0x5DAE2223,
                 0xB00361A3, 0x96177A9C, 0xB410FF61, 0xF20015AD)
  {}

  lemma FirstHalf()
    ensures OutputBytes(0xBA7816BF) == [0xba, 0x78, 0x16, 0xbf]
    ensures OutputBytes(0x8F01CFEA) == [0x8f, 0x01, 0xcf, 0xea]
    ensures OutputBytes(0x414140DE) == [0x41, 0x41, 0x40, 0xde]
    ensures OutputBytes(0x5DAE2223) == [0x5d, 0xae, 0x22, 0x23]
  {}

  lemma SecondHalf()
    ensures OutputBytes(0xB00361A3) == [0xb0, 0x03, 0x61, 0xa3]
    ensures OutputBytes(0x96177A9C) == [0x96, 0x17, 0x7a, 0x9c]
    ensures OutputBytes(0xB410FF61) == [0xb4, 0x10, 0xff, 0x61]
    ensures OutputBytes(0xF20015AD) == [0xf2, 0x00, 0x15, 0xad]
  {}

  /** The digest of "abc" is that of the standard's example. */
  lemma DigestOfAbc()
    ensures Sha256(Abc()) ==
            [0xba, 0x78, 0x16, 0xbf, 0x8f, 0x01, 0xcf, 0xea, 0x41, 0x41, 0x40, 0xde, 0x5d, 0xae, 0x22, 0x23,
             0xb0, 0x03, 0x61, 0xa3, 0x96, 0x17, 0x7a, 0x9c, 0xb4, 0x10, 0xff, 0x61, 0xf2, 0x00, 0x15, 0xad]
  {
    hide Rounds, Schedule, OutputBytes, AddVars, AbcBlock, Padding, Digest, K;
    AbcIsExample();
    Rounds56(AbcBlock());
    AllRounds(AbcBlock());
    Sums();
    Hashed();
    DigestOf(Vars(0xBA7816BF, 0x8F01CFEA, 0x414140DE, 0x5DAE2223,
                  0xB00361A3, 0x96177A9C, 0xB410FF61, 0xF20015AD));
    FirstHalf();
    SecondHalf();
  }

  lemma AllRounds(b: Block)
    ensures Compress(INITIAL, b) == AddVars(INITIAL, After(b, 64))
  {
    hide Rounds, AddVars, K;
    assert K()[..64] == K();
  }

  lemma Hashed()
    ensures Sha256(Abc()) == Digest(Compress(INITIAL, AbcBlock()))
  {
    hide Compress, Padding, Digest, AbcBlock;
    AbcBytes();
    FoldBlock(Compress, INITIAL, [], AbcBlock());
    assert [] + AbcBlock() == AbcBlock();
  }

  lemma DigestOf(v: Vars)
    ensures Digest(v) == OutputBytes(v.a) + OutputBytes(v.b) + OutputBytes(v.c) + OutputBytes(v.d)
                         + OutputBytes(v.e) + OutputBytes(v.f) + OutputBytes(v.g) + OutputBytes(v.h)
  {
    hide OutputBytes, WordsBytes;
    NoWords();
    Four(v.a, v.b, v.c, v.d, []);
    Four(v.e, v.f, v.g, v.h, [v.a, v.b, v.c, v.d]);
    assert [v.a, v.b, v.c, v.d] + [v.e, v.f, v.g, v.h] == [v.a, v.b, v.c, v.d, v.e, v.f, v.g, v.h];
    assert [] + [v.a, v.b, v.c, v.d] == [v.a, v.b, v.c, v.d];
  }

  lemma NoWords() ensures WordsBytes([]) == [] {}

  lemma Four(a: Word, b: Word, c: Word, d: Word, ws: seq<Word>)
    ensures WordsBytes(ws + [a, b, c, d])
            == WordsBytes(ws) + OutputBytes(a) + OutputBytes(b) + OutputBytes(c) + OutputBytes(d)
  {
    hide OutputBytes, WordsBytes;
    assert ws + [a, b, c, d] == ws + [a] + [b] + [c] + [d];
    OneMore(ws, a);
    OneMore(ws + [a], b);
    OneMore(ws + [a] + [b], c);
    OneMore(ws + [a] + [b] + [c], d);
  }

  lemma OneMore(ws: seq<Word>, w: Word)
    ensures WordsBytes(ws + [w]) == WordsBytes(ws) + OutputBytes(w)
  {
    hide OutputBytes;
    assert (ws + [w])[..|ws|] == ws;
  }
}
