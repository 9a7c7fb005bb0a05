/** utils_internal_aes_encrypt and utils_internal_aes_decrypt on byte buffers: the T-table rounds
    compute the cipher and the inverse cipher of FIPS 197, also when input and output overlap. */
module AesBlock {
  import opened AesField
  import opened AesSbox
  import opened AesWord
  import opened AesMix
  import opened AesCipher
  import opened AesTables
  import opened AesLookup
  import opened AesKeys

  /** Section 3.4 of FIPS 197: 16 bytes as a state. */
  function StateOf(b: seq<bv8>): State
    requires |b| == 16
  {
    State(Col(b[0], b[1], b[2], b[3]), Col(b[4], b[5], b[6], b[7]),
          Col(b[8], b[9], b[10], b[11]), Col(b[12], b[13], b[14], b[15]))
  }

  function ColumnBytes(c: Col): (b: seq<bv8>)
    ensures |b| == 4
  {
    [c.b0, c.b1, c.b2, c.b3]
  }

  function BlockOf(s: State): (b: seq<bv8>)
    ensures |b| == 16 && StateOf(b) == s
  {
    ColumnBytes(s.c0) + ColumnBytes(s.c1) + ColumnBytes(s.c2) + ColumnBytes(s.c3)
  }

  ghost function EncryptBlock(ks: seq<State>, b: seq<bv8>): (r: seq<bv8>)
    requires |ks| >= 2 && |b| == 16
    ensures |r| == 16
  {
    BlockOf(Cipher(StateOf(b), ks))
  }

  ghost function DecryptBlock(ks: seq<State>, b: seq<bv8>): (r: seq<bv8>)
    requires |ks| >= 2 && |b| == 16
    ensures |r| == 16
  {
    BlockOf(InvCipher(StateOf(b), ks))
  }

  lemma BlockOfState(b: seq<bv8>)
    requires |b| == 16
    ensures BlockOf(StateOf(b)) == b
  {}

  /** Decryption undoes encryption on every block, and the other way round. */
  lemma BlockRoundTrip(ks: seq<State>, b: seq<bv8>)
    requires |ks| >= 2 && |b| == 16
    ensures DecryptBlock(ks, EncryptBlock(ks, b)) == b
    ensures EncryptBlock(ks, DecryptBlock(ks, b)) == b
  {
    hide Cipher, InvCipher, BlockOf, StateOf;
    InvCipherOfCipher(StateOf(b), ks);
    CipherOfInvCipher(StateOf(b), ks);
    BlockOfState(b);
  }

  /** The four working words X0..X3 or Y0..Y3. */
  datatype Words = Words(w0: bv32, w1: bv32, w2: bv32, w3: bv32)

  function Packed(s: State): Words {
    Words(Word(s.c0), Word(s.c1), Word(s.c2), Word(s.c3))
  }

  /** AES_FROUND with RK at buf[p]. */
  function FRound(t: Tables, ctx: AesContext, p: nat, y: Words): Words
    requires t.Shape() && p + 4 <= ctx.buf.Length
    reads ctx.buf, t.FT0, t.FT1, t.FT2, t.FT3
  {
    Words(Xor(ctx.buf[p], ForwardSum(t, y.w0, y.w1, y.w2, y.w3)),
          Xor(ctx.buf[p + 1], ForwardSum(t, y.w1, y.w2, y.w3, y.w0)),
          Xor(ctx.buf[p + 2], ForwardSum(t, y.w2, y.w3, y.w0, y.w1)),
          Xor(ctx.buf[p + 3], ForwardSum(t, y.w3, y.w0, y.w1, y.w2)))
  }

  /** AES_RROUND with RK at buf[p]. */
  function RRound(t: Tables, ctx: AesContext, p: nat, y: Words): Words
    requires t.Shape() && p + 4 <= ctx.buf.Length
    reads ctx.buf, t.RT0, t.RT1, t.RT2, t.RT3
  {
    Words(Xor(ctx.buf[p], ReverseSum(t, y.w0, y.w3, y.w2, y.w1)),
          Xor(ctx.buf[p + 1], ReverseSum(t, y.w1, y.w0, y.w3, y.w2)),
          Xor(ctx.buf[p + 2], ReverseSum(t, y.w2, y.w1, y.w0, y.w3)),
          Xor(ctx.buf[p + 3], ReverseSum(t, y.w3, y.w2, y.w1, y.w0)))
  }

  /** The last round of the encryption, without MixColumns. */
  function FFinal(t: Tables, ctx: AesContext, p: nat, y: Words): Words
    requires t.Shape() && p + 4 <= ctx.buf.Length
    reads ctx.buf, t.FSb
  {
    Words(Xor(ctx.buf[p], SubShifts(t, y.w0, y.w1, y.w2, y.w3)),
          Xor(ctx.buf[p + 1], SubShifts(t, y.w1, y.w2, y.w3, y.w0)),
          Xor(ctx.buf[p + 2], SubShifts(t, y.w2, y.w3, y.w0, y.w1)),
          Xor(ctx.buf[p + 3], SubShifts(t, y.w3, y.w0, y.w1, y.w2)))
  }

  function RFinal(t: Tables, ctx: AesContext, p: nat, y: Words): Words
    requires t.Shape() && p + 4 <= ctx.buf.Length
    reads ctx.buf, t.RSb
  {
    Words(Xor(ctx.buf[p], InvSubShifts(t, y.w0, y.w3, y.w2, y.w1)),
          Xor(ctx.buf[p + 1], InvSubShifts(t, y.w1, y.w0, y.w3, y.w2)),
          Xor(ctx.buf[p + 2], InvSubShifts(t, y.w2, y.w1, y.w0, y.w3)),
          Xor(ctx.buf[p + 3], InvSubShifts(t, y.w3, y.w2, y.w1, y.w0)))
  }

  /** The first AddRoundKey. */
  function AddFirst(ctx: AesContext, x: Words): Words
    requires 4 <= ctx.buf.Length
    reads ctx.buf
  {
    Words(Xor(x.w0, ctx.buf[0]), Xor(x.w1, ctx.buf[1]), Xor(x.w2, ctx.buf[2]), Xor(x.w3, ctx.buf[3]))
  }

  // ---------- each step on states ----------

  lemma RoundKeyAt(ctx: AesContext, ks: seq<State>, r: nat)
    requires ctx.Loaded(ks) && r < |ks|
    ensures 4 * r + 4 <= ctx.buf.Length
    ensures Words(ctx.buf[4 * r], ctx.buf[4 * r + 1], ctx.buf[4 * r + 2], ctx.buf[4 * r + 3]) == Packed(ks[r])
  {
    hide Word;
  }

  /** Xoring a round key onto packed columns is AddRoundKey, from either side. */
  lemma XorKey(s: Col, k: Col)
    ensures Xor(Word(k), Word(s)) == Word(AddCol(s, k))
    ensures Xor(Word(s), Word(k)) == Word(AddCol(s, k))
  {
    hide Word, AddCol, Xor;
    XorWords(k, s);
    XorWords(s, k);
    AddColCommutes(s, k);
  }

  lemma AddFirstIs(ctx: AesContext, ks: seq<State>, s: State)
    requires ctx.Loaded(ks)
    ensures AddFirst(ctx, Packed(s)) == Packed(AddRoundKey(s, ks[0]))
  {
    RoundKeyAt(ctx, ks, 0);
    hide Word, AddCol, Xor, ctx.Loaded;
    XorKey(s.c0, ks[0].c0);
    XorKey(s.c1, ks[0].c1);
    XorKey(s.c2, ks[0].c2);
    XorKey(s.c3, ks[0].c3);
  }

  lemma FRoundIs(t: Tables, ctx: AesContext, ks: seq<State>, r: nat, s: State)
    requires t.Ready() && ctx.Loaded(ks) && r < |ks|
    ensures 4 * r + 4 <= ctx.buf.Length && FRound(t, ctx, 4 * r, Packed(s)) == Packed(Round(s, ks[r]))
  {
    RoundKeyAt(ctx, ks, r);
    hide Word, AddCol, Xor, SBox, MixColumn, ForwardSum, t.Ready, ctx.Loaded;
    ForwardSumIs(t, s.c0, s.c1, s.c2, s.c3);
    ForwardSumIs(t, s.c1, s.c2, s.c3, s.c0);
    ForwardSumIs(t, s.c2, s.c3, s.c0, s.c1);
    ForwardSumIs(t, s.c3, s.c0, s.c1, s.c2);
    var m := MixColumns(ShiftRows(SubBytes(s)));
    XorKey(m.c0, ks[r].c0);
    XorKey(m.c1, ks[r].c1);
    XorKey(m.c2, ks[r].c2);
    XorKey(m.c3, ks[r].c3);
  }

  lemma RRoundIs(t: Tables, ctx: AesContext, dks: seq<State>, r: nat, s: State)
    requires t.Ready() && ctx.Loaded(dks) && r < |dks|
    ensures 4 * r + 4 <= ctx.buf.Length && RRound(t, ctx, 4 * r, Packed(s)) == Packed(EqRound(s, dks[r]))
  {
    RoundKeyAt(ctx, dks, r);
    hide Word, AddCol, Xor, InvSBox, InvMixColumn, ReverseSum, t.Ready, ctx.Loaded;
    ReverseSumIs(t, s.c0, s.c3, s.c2, s.c1);
    ReverseSumIs(t, s.c1, s.c0, s.c3, s.c2);
    ReverseSumIs(t, s.c2, s.c1, s.c0, s.c3);
    ReverseSumIs(t, s.c3, s.c2, s.c1, s.c0);
    var m := InvMixColumns(InvShiftRows(InvSubBytes(s)));
    XorKey(m.c0, dks[r].c0);
    XorKey(m.c1, dks[r].c1);
    XorKey(m.c2, dks[r].c2);
    XorKey(m.c3, dks[r].c3);
  }

  lemma FFinalIs(t: Tables, ctx: AesContext, ks: seq<State>, r: nat, s: State)
    requires t.Ready() && ctx.Loaded(ks) && r < |ks|
    ensures 4 * r + 4 <= ctx.buf.Length
    ensures FFinal(t, ctx, 4 * r, Packed(s)) == Packed(AddRoundKey(ShiftRows(SubBytes(s)), ks[r]))
  {
    RoundKeyAt(ctx, ks, r);
    hide Word, AddCol, Xor, SBox, InvSBox, SubShifts, InvSubShifts, t.Ready, ctx.Loaded;
    SubShiftsIs(t, s.c0, s.c1, s.c2, s.c3);
    SubShiftsIs(t, s.c1, s.c2, s.c3, s.c0);
    SubShiftsIs(t, s.c2, s.c3, s.c0, s.c1);
    SubShiftsIs(t, s.c3, s.c0, s.c1, s.c2);
    var m := ShiftRows(SubBytes(s));
    XorKey(m.c0, ks[r].c0);
    XorKey(m.c1, ks[r].c1);
    XorKey(m.c2, ks[r].c2);
    XorKey(m.c3, ks[r].c3);
  }

  lemma RFinalIs(t: Tables, ctx: AesContext, dks: seq<State>, r: nat, s: State)
    requires t.Ready() && ctx.Loaded(dks) && r < |dks|
    ensures 4 * r + 4 <= ctx.buf.Length
    ensures RFinal(t, ctx, 4 * r, Packed(s)) == Packed(AddRoundKey(InvShiftRows(InvSubBytes(s)), dks[r]))
  {
    RoundKeyAt(ctx, dks, r);
    hide Word, AddCol, Xor, SBox, InvSBox, SubShifts, InvSubShifts, t.Ready, ctx.Loaded;
    SubShiftsIs(t, s.c0, s.c3, s.c2, s.c1);
    SubShiftsIs(t, s.c1, s.c0, s.c3, s.c2);
    SubShiftsIs(t, s.c2, s.c1, s.c0, s.c3);
    SubShiftsIs(t, s.c3, s.c2, s.c1, s.c0);
    var m := InvShiftRows(InvSubBytes(s));
    XorKey(m.c0, dks[r].c0);
    XorKey(m.c1, dks[r].c1);
    XorKey(m.c2, dks[r].c2);
    XorKey(m.c3, dks[r].c3);
  }

  // ---------- loading and storing ----------

  /** The four GET_UINT32_LE at the start of both functions. */
  method LoadBlock(input: array<bv8>, i: nat) returns (x: Words)
    requires i + 16 <= input.Length
    ensures x == Packed(StateOf(input[i..i + 16]))
  {
    hide Word;
    var b := input[i..i + 16];
    x := Words(LoadLE(b, 0), LoadLE(b, 4), LoadLE(b, 8), LoadLE(b, 12));
  }

  /** One PUT_UINT32_LE. */
  method StoreWord(w: bv32, output: array<bv8>, o: nat)
    requires o + 4 <= output.Length
    modifies output
    ensures output[..] == old(output[..o]) + [Byte0(w), Byte1(w), Byte2(w), Byte3(w)] + old(output[o + 4..])
  {
    hide Byte0, Byte1, Byte2, Byte3;
    output[o] := Byte0(w);
    output[o + 1] := Byte1(w);
    output[o + 2] := Byte2(w);
    output[o + 3] := Byte3(w);
  }

  lemma Splice(pre: seq<bv8>, done: seq<bv8>, old4: seq<bv8>, new4: seq<bv8>, rest: seq<bv8>, o: nat, all: seq<bv8>)
    requires |old4| == |new4| == 4 && o == |pre| + |done| && all == pre + done + old4 + rest
    ensures all[..o] + new4 + all[o + 4..] == pre + (done + new4) + rest
  {
    assert all[..o] == pre + done;
    assert all[o + 4..] == rest;
  }

  /** PUT_UINT32_LE of word k of the block b. */
  method StoreNext(w: bv32, output: array<bv8>, o: nat, k: nat, ghost b: seq<bv8>, ghost was: seq<bv8>)
    requires k < 4 && o + 16 <= output.Length == |was| && |b| == 16
    requires [Byte0(w), Byte1(w), Byte2(w), Byte3(w)] == b[4 * k..4 * k + 4]
    requires output[..] == was[..o] + b[..4 * k] + was[o + 4 * k..]
    modifies output
    ensures output[..] == was[..o] + b[..4 * k + 4] + was[o + 4 * k + 4..]
  {
    hide Byte0, Byte1, Byte2, Byte3;
    ghost var m := o + 4 * k;
    assert was[m..] == was[m..m + 4] + was[m + 4..];
    assert was[..o] + b[..4 * k] + was[m..] == was[..o] + b[..4 * k] + was[m..m + 4] + was[m + 4..];
    Splice(was[..o], b[..4 * k], was[m..m + 4], b[4 * k..4 * k + 4], was[m + 4..], m, output[..]);
    assert b[..4 * k] + b[4 * k..4 * k + 4] == b[..4 * k + 4];
    StoreWord(w, output, o + 4 * k);
  }

  method StoreBlock(x: Words, output: array<bv8>, o: nat, ghost s: State)
    requires o + 16 <= output.Length && x == Packed(s)
    modifies output
    ensures output[..] == old(output[..o]) + BlockOf(s) + old(output[o + 16..])
  {
    hide Byte0, Byte1, Byte2, Byte3, BlockOf, Word, ColumnBytes;
    ghost var was, b := output[..], BlockOf(s);
    BlockSlices(s);
    WordBytesOf(s.c0);
    WordBytesOf(s.c1);
    WordBytesOf(s.c2);
    WordBytesOf(s.c3);
    StoreNext(x.w0, output, o, 0, b, was);
    StoreNext(x.w1, output, o, 1, b, was);
    StoreNext(x.w2, output, o, 2, b, was);
    StoreNext(x.w3, output, o, 3, b, was);
  }

  lemma WordBytesOf(c: Col)
    ensures [Byte0(Word(c)), Byte1(Word(c)), Byte2(Word(c)), Byte3(Word(c))] == ColumnBytes(c)
  {
    hide Byte0, Byte1, Byte2, Byte3, Word;
    BytesOfWord(c);
  }

  lemma BlockSlices(s: State)
    ensures BlockOf(s)[0..4] == ColumnBytes(s.c0) && BlockOf(s)[4..8] == ColumnBytes(s.c1)
    ensures BlockOf(s)[8..12] == ColumnBytes(s.c2) && BlockOf(s)[12..16] == ColumnBytes(s.c3)
  {
    hide ColumnBytes;
  }

  // ---------- the two block functions ----------

  lemma TwoRounds(t: Tables, ctx: AesContext, ks: seq<State>, r: nat, s: State)
    requires t.Shape() && t.Ready() && ctx.Loaded(ks) && r + 2 < |ks|
    ensures 4 * r + 12 <= ctx.buf.Length
    ensures FRound(t, ctx, 4 * r + 8, FRound(t, ctx, 4 * r + 4, Packed(Rounds(s, ks, r))))
         == Packed(Rounds(s, ks, r + 2))
  {
    hide t.Ready, t.Shape, ctx.Loaded, Packed, FRound, Round, AddRoundKey, ShiftRows, SubBytes;
    FRoundIs(t, ctx, ks, r + 1, Rounds(s, ks, r));
    FRoundIs(t, ctx, ks, r + 2, Rounds(s, ks, r + 1));
  }

  lemma LastRounds(t: Tables, ctx: AesContext, ks: seq<State>, s: State)
    requires t.Shape() && t.Ready() && ctx.Loaded(ks)
    ensures 4 * ctx.nr + 4 <= ctx.buf.Length
    ensures FFinal(t, ctx, 4 * ctx.nr, FRound(t, ctx, 4 * ctx.nr - 4, Packed(Rounds(s, ks, ctx.nr - 2))))
         == Packed(Cipher(s, ks))
  {
    hide t.Ready, t.Shape, Packed, FRound, FFinal, Round, AddRoundKey, ShiftRows, SubBytes;
    FRoundIs(t, ctx, ks, ctx.nr - 1, Rounds(s, ks, ctx.nr - 2));
    FFinalIs(t, ctx, ks, ctx.nr, Rounds(s, ks, ctx.nr - 1));
  }

  /** The loop of utils_internal_aes_encrypt, two rounds per iteration. */
  method EncryptLoop(t: Tables, ctx: AesContext, x0: Words, ghost s: State, ghost ks: seq<State>)
    returns (x: Words, rk: nat)
    requires t.Shape() && t.Ready() && ctx.Loaded(ks)
    requires x0 == Packed(Rounds(s, ks, 0))
    ensures t.Ready() && ctx.Loaded(ks)
    ensures rk == 4 * ctx.nr - 4 && x == Packed(Rounds(s, ks, ctx.nr - 2))
  {
    hide t.Ready, t.Shape, Packed, FRound, Rounds, KeyWord;
    x := x0;
    rk := 4;
    var n := ctx.nr / 2 - 1;
    ghost var r := 0;
    while n > 0
      invariant 0 <= n && r == ctx.nr - 2 - 2 * n && rk == 4 * r + 4
      invariant t.Ready() && ctx.Loaded(ks)
      invariant x == Packed(Rounds(s, ks, r))
    {
      TwoRounds(t, ctx, ks, r, s);
      x := FRound(t, ctx, rk + 4, FRound(t, ctx, rk, x));
      rk := rk + 8;
      n := n - 1;
      r := r + 2;
    }
  }

  method EncryptWords(t: Tables, ctx: AesContext, x0: Words, ghost s: State, ghost ks: seq<State>) returns (x: Words)
    requires t.Shape() && t.Ready() && ctx.Loaded(ks) && x0 == Packed(s)
    ensures t.Ready() && ctx.Loaded(ks)
    ensures x == Packed(Cipher(s, ks))
  {
    hide t.Ready, t.Shape, Packed, FRound, FFinal, AddFirst, Rounds, Cipher, KeyWord;
    FirstRounds(s, ks);
    AddFirstIs(ctx, ks, s);
    x := AddFirst(ctx, x0);
    var rk;
    x, rk := EncryptLoop(t, ctx, x, s, ks);
    LastRounds(t, ctx, ks, s);
    var y := FRound(t, ctx, rk, x);
    x := FFinal(t, ctx, rk + 4, y);
  }

  lemma FirstRounds(s: State, ks: seq<State>)
    requires |ks| > 0
    ensures Rounds(s, ks, 0) == AddRoundKey(s, ks[0])
  {}

  lemma TwoEqRounds(t: Tables, ctx: AesContext, dks: seq<State>, r: nat, s: State)
    requires t.Shape() && t.Ready() && ctx.Loaded(dks) && r + 2 < |dks|
    ensures 4 * r + 12 <= ctx.buf.Length
    ensures RRound(t, ctx, 4 * r + 8, RRound(t, ctx, 4 * r + 4, Packed(EqRounds(s, dks, r))))
         == Packed(EqRounds(s, dks, r + 2))
  {
    hide t.Ready, t.Shape, ctx.Loaded, Packed, RRound, EqRound, AddRoundKey, InvShiftRows, InvSubBytes;
    RRoundIs(t, ctx, dks, r + 1, EqRounds(s, dks, r));
    RRoundIs(t, ctx, dks, r + 2, EqRounds(s, dks, r + 1));
  }

  lemma LastEqRounds(t: Tables, ctx: AesContext, dks: seq<State>, s: State)
    requires t.Shape() && t.Ready() && ctx.Loaded(dks)
    ensures 4 * ctx.nr + 4 <= ctx.buf.Length
    ensures RFinal(t, ctx, 4 * ctx.nr, RRound(t, ctx, 4 * ctx.nr - 4, Packed(EqRounds(s, dks, ctx.nr - 2))))
         == Packed(EqInvCipher(s, dks))
  {
    hide t.Ready, t.Shape, Packed, RRound, RFinal, EqRound, AddRoundKey, InvShiftRows, InvSubBytes;
    RRoundIs(t, ctx, dks, ctx.nr - 1, EqRounds(s, dks, ctx.nr - 2));
    RFinalIs(t, ctx, dks, ctx.nr, EqRounds(s, dks, ctx.nr - 1));
  }

  /** The loop of utils_internal_aes_decrypt, two rounds per iteration. */
  method DecryptLoop(t: Tables, ctx: AesContext, x0: Words, ghost s: State, ghost dks: seq<State>)
    returns (x: Words, rk: nat)
    requires t.Shape() && t.Ready() && ctx.Loaded(dks)
    requires x0 == Packed(EqRounds(s, dks, 0))
    ensures t.Ready() && ctx.Loaded(dks)
    ensures rk == 4 * ctx.nr - 4 && x == Packed(EqRounds(s, dks, ctx.nr - 2))
  {
    hide t.Ready, t.Shape, Packed, RRound, EqRounds, KeyWord;
    x := x0;
    rk := 4;
    var n := ctx.nr / 2 - 1;
    ghost var r := 0;
    while n > 0
      invariant 0 <= n && r == ctx.nr - 2 - 2 * n && rk == 4 * r + 4
      invariant t.Ready() && ctx.Loaded(dks)
      invariant x == Packed(EqRounds(s, dks, r))
    {
      TwoEqRounds(t, ctx, dks, r, s);
      x := RRound(t, ctx, rk + 4, RRound(t, ctx, rk, x));
      rk := rk + 8;
      n := n - 1;
      r := r + 2;
    }
  }

  method DecryptWords(t: Tables, ctx: AesContext, x0: Words, ghost s: State, ghost dks: seq<State>) returns (x: Words)
    requires t.Shape() && t.Ready() && ctx.Loaded(dks) && x0 == Packed(s)
    ensures t.Ready() && ctx.Loaded(dks)
    ensures x == Packed(EqInvCipher(s, dks))
  {
    hide t.Ready, t.Shape, Packed, RRound, RFinal, AddFirst, EqRounds, EqInvCipher, KeyWord;
    FirstEqRounds(s, dks);
    AddFirstIs(ctx, dks, s);
    x := AddFirst(ctx, x0);
    var rk;
    x, rk := DecryptLoop(t, ctx, x, s, dks);
    LastEqRounds(t, ctx, dks, s);
    var y := RRound(t, ctx, rk, x);
    x := RFinal(t, ctx, rk + 4, y);
  }

  lemma FirstEqRounds(s: State, dks: seq<State>)
    requires |dks| > 0
    ensures EqRounds(s, dks, 0) == AddRoundKey(s, dks[0])
  {}

  /** utils_internal_aes_encrypt */
  method Encrypt(t: Tables, ctx: AesContext, input: array<bv8>, i: nat, output: array<bv8>, o: nat,
                 ghost ks: seq<State>)
    requires t.Shape() && t.Ready() && ctx.Loaded(ks)
    requires i + 16 <= input.Length && o + 16 <= output.Length && output !in t.Arrays()
    modifies output
    ensures t.Ready() && ctx.Loaded(ks)
    ensures output[..] == old(output[..o]) + EncryptBlock(ks, old(input[i..i + 16])) + old(output[o + 16..])
  {
    hide t.Ready, Packed, Cipher, BlockOf, StateOf, KeyWord;
    var x := LoadBlock(input, i);
    ghost var s := StateOf(input[i..i + 16]);
    x := EncryptWords(t, ctx, x, s, ks);
    StoreBlock(x, output, o, Cipher(s, ks));
  }

  /** utils_internal_aes_decrypt, with the decryption schedule of ks in ctx. */
  method Decrypt(t: Tables, ctx: AesContext, input: array<bv8>, i: nat, output: array<bv8>, o: nat,
                 ghost ks: seq<State>)
    requires t.Shape() && t.Ready() && |ks| >= 2 && ctx.Loaded(DecKeys(ks))
    requires i + 16 <= input.Length && o + 16 <= output.Length && output !in t.Arrays()
    modifies output
    ensures t.Ready() && ctx.Loaded(DecKeys(ks))
    ensures output[..] == old(output[..o]) + DecryptBlock(ks, old(input[i..i + 16])) + old(output[o + 16..])
  {
    hide t.Ready, Packed, EqInvCipher, InvCipher, BlockOf, StateOf, KeyWord, DecKeys;
    var x := LoadBlock(input, i);
    ghost var s := StateOf(input[i..i + 16]);
    x := DecryptWords(t, ctx, x, s, DecKeys(ks));
    EqInvCipherIsInvCipher(s, DecKeys(ks), ks);
    StoreBlock(x, output, o, InvCipher(s, ks));
  }
}
