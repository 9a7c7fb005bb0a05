/** The cipher, the inverse cipher and the equivalent inverse cipher of FIPS 197
    (sections 5.1, 5.3 and 5.3.5), over a given list of round keys. */
module AesCipher {
  import opened AesField
  import opened AesSbox
  import opened AesWord
  import opened AesMix

  /** The 4x4 state, by columns. */
  datatype State = State(c0: Col, c1: Col, c2: Col, c3: Col)

  ghost function SubColumn(c: Col): Col {
    Col(SBox(c.b0), SBox(c.b1), SBox(c.b2), SBox(c.b3))
  }

  ghost function InvSubColumn(c: Col): Col {
    Col(InvSBox(c.b0), InvSBox(c.b1), InvSBox(c.b2), InvSBox(c.b3))
  }

  ghost function SubBytes(s: State): State {
    State(SubColumn(s.c0), SubColumn(s.c1), SubColumn(s.c2), SubColumn(s.c3))
  }

  ghost function InvSubBytes(s: State): State {
    State(InvSubColumn(s.c0), InvSubColumn(s.c1), InvSubColumn(s.c2), InvSubColumn(s.c3))
  }

  function ShiftRows(s: State): State {
    State(Col(s.c0.b0, s.c1.b1, s.c2.b2, s.c3.b3), Col(s.c1.b0, s.c2.b1, s.c3.b2, s.c0.b3),
          Col(s.c2.b0, s.c3.b1, s.c0.b2, s.c1.b3), Col(s.c3.b0, s.c0.b1, s.c1.b2, s.c2.b3))
  }

  function InvShiftRows(s: State): State {
    State(Col(s.c0.b0, s.c3.b1, s.c2.b2, s.c1.b3), Col(s.c1.b0, s.c0.b1, s.c3.b2, s.c2.b3),
          Col(s.c2.b0, s.c1.b1, s.c0.b2, s.c3.b3), Col(s.c3.b0, s.c2.b1, s.c1.b2, s.c0.b3))
  }

  function MixColumns(s: State): State {
    State(MixColumn(s.c0), MixColumn(s.c1), MixColumn(s.c2), MixColumn(s.c3))
  }

  function InvMixColumns(s: State): State {
    State(InvMixColumn(s.c0), InvMixColumn(s.c1), InvMixColumn(s.c2), InvMixColumn(s.c3))
  }

  function AddRoundKey(s: State, k: State): State {
    State(AddCol(s.c0, k.c0), AddCol(s.c1, k.c1), AddCol(s.c2, k.c2), AddCol(s.c3, k.c3))
  }

  // ---------- section 5.1 ----------

  ghost function Round(s: State, k: State): State {
    AddRoundKey(MixColumns(ShiftRows(SubBytes(s))), k)
  }

  /** The state after the initial AddRoundKey and n full rounds. */
  ghost function Rounds(s: State, ks: seq<State>, n: nat): State
    requires n < |ks|
  {
    if n == 0 then AddRoundKey(s, ks[0]) else Round(Rounds(s, ks, n - 1), ks[n])
  }

  ghost function Cipher(s: State, ks: seq<State>): State
    requires |ks| >= 2
  {
    AddRoundKey(ShiftRows(SubBytes(Rounds(s, ks, |ks| - 2))), ks[|ks| - 1])
  }

  // ---------- section 5.3 ----------

  ghost function InvRound(s: State, k: State): State {
    InvMixColumns(AddRoundKey(InvSubBytes(InvShiftRows(s)), k))
  }

  /** The state after undoing the last AddRoundKey and n rounds of the cipher. */
  ghost function InvRounds(s: State, ks: seq<State>, n: nat): State
    requires n < |ks|
  {
    if n == 0 then AddRoundKey(s, ks[|ks| - 1]) else InvRound(InvRounds(s, ks, n - 1), ks[|ks| - 1 - n])
  }

  ghost function InvCipher(s: State, ks: seq<State>): State
    requires |ks| >= 2
  {
    AddRoundKey(InvSubBytes(InvShiftRows(InvRounds(s, ks, |ks| - 2))), ks[0])
  }

  // ---------- section 5.3.5 ----------

  ghost function EqRound(s: State, k: State): State {
    AddRoundKey(InvMixColumns(InvShiftRows(InvSubBytes(s))), k)
  }

  ghost function EqRounds(s: State, dks: seq<State>, n: nat): State
    requires n < |dks|
  {
    if n == 0 then AddRoundKey(s, dks[0]) else EqRound(EqRounds(s, dks, n - 1), dks[n])
  }

  ghost function EqInvCipher(s: State, dks: seq<State>): State
    requires |dks| >= 2
  {
    AddRoundKey(InvShiftRows(InvSubBytes(EqRounds(s, dks, |dks| - 2))), dks[|dks| - 1])
  }

  /** dks is the decryption schedule of ks: reversed, the inner round keys through InvMixColumns. */
  ghost predicate DecSchedule(dks: seq<State>, ks: seq<State>) {
    && |dks| == |ks| >= 2
    && dks[0] == ks[|ks| - 1]
    && dks[|ks| - 1] == ks[0]
    && forall r :: 1 <= r < |ks| - 1 ==> dks[r] == InvMixColumns(ks[|ks| - 1 - r])
  }

  function DecKeys(ks: seq<State>): (dks: seq<State>)
    requires |ks| >= 2
    ensures DecSchedule(dks, ks)
  {
    seq(|ks|, r requires 0 <= r < |ks| =>
      if r == 0 then ks[|ks| - 1] else if r == |ks| - 1 then ks[0] else InvMixColumns(ks[|ks| - 1 - r]))
  }

  // ---------- layers ----------

  lemma AddRoundKeyTwice(s: State, k: State)
    ensures AddRoundKey(AddRoundKey(s, k), k) == s
  {
    hide AddCol;
    AddColLaws(s.c0, k.c0, k.c0);
    AddColLaws(s.c1, k.c1, k.c1);
    AddColLaws(s.c2, k.c2, k.c2);
    AddColLaws(s.c3, k.c3, k.c3);
  }

  lemma SubColumnInverse(c: Col)
    ensures InvSubColumn(SubColumn(c)) == c
    ensures SubColumn(InvSubColumn(c)) == c
  {
    hide SBox, InvSBox;
    SBoxPermutes(c.b0);
    SBoxPermutes(c.b1);
    SBoxPermutes(c.b2);
    SBoxPermutes(c.b3);
  }

  lemma SubBytesInverse(s: State)
    ensures InvSubBytes(SubBytes(s)) == s
    ensures SubBytes(InvSubBytes(s)) == s
  {
    hide SubColumn, InvSubColumn;
    SubColumnInverse(s.c0);
    SubColumnInverse(s.c1);
    SubColumnInverse(s.c2);
    SubColumnInverse(s.c3);
  }

  lemma ShiftRowsInverse(s: State)
    ensures InvShiftRows(ShiftRows(s)) == s
    ensures ShiftRows(InvShiftRows(s)) == s
  {}

  lemma MixColumnsInverse(s: State)
    ensures InvMixColumns(MixColumns(s)) == s
    ensures MixColumns(InvMixColumns(s)) == s
  {
    hide MixColumn, InvMixColumn;
    MixInverse(s.c0);
    MixInverse(s.c1);
    MixInverse(s.c2);
    MixInverse(s.c3);
  }

  lemma InvMixColumnsLinear(s: State, k: State)
    ensures InvMixColumns(AddRoundKey(s, k)) == AddRoundKey(InvMixColumns(s), InvMixColumns(k))
  {
    hide Circulant, AddCol;
    CirculantLinear(INV_MIX, s.c0, k.c0);
    CirculantLinear(INV_MIX, s.c1, k.c1);
    CirculantLinear(INV_MIX, s.c2, k.c2);
    CirculantLinear(INV_MIX, s.c3, k.c3);
  }

  lemma SubShiftCommute(s: State)
    ensures InvSubBytes(InvShiftRows(s)) == InvShiftRows(InvSubBytes(s))
  {
    hide InvSBox;
  }

  // ---------- the cipher and its inverse ----------

  lemma RoundInverse(s: State, k: State)
    ensures AddRoundKey(Round(s, k), k) == MixColumns(ShiftRows(SubBytes(s)))
    ensures InvSubBytes(InvShiftRows(InvMixColumns(AddRoundKey(Round(s, k), k)))) == s
  {
    hide AddRoundKey, MixColumns, InvMixColumns, ShiftRows, InvShiftRows, SubBytes, InvSubBytes;
    AddRoundKeyTwice(MixColumns(ShiftRows(SubBytes(s))), k);
    MixColumnsInverse(ShiftRows(SubBytes(s)));
    ShiftRowsInverse(SubBytes(s));
    SubBytesInverse(s);
  }

  /** Undoing n rounds of the ciphertext leads back to the ShiftRows output of round |ks| - 1 - n. */
  lemma {:induction false} InvRoundsOfCipher(s: State, ks: seq<State>, n: nat)
    requires n <= |ks| - 2
    ensures InvRounds(Cipher(s, ks), ks, n) == ShiftRows(SubBytes(Rounds(s, ks, |ks| - 2 - n)))
  {
    hide AddRoundKey, MixColumns, InvMixColumns, ShiftRows, InvShiftRows, SubBytes, InvSubBytes;
    if n == 0 {
      AddRoundKeyTwice(ShiftRows(SubBytes(Rounds(s, ks, |ks| - 2))), ks[|ks| - 1]);
    } else {
      InvRoundsOfCipher(s, ks, n - 1);
      var m := |ks| - 1 - n;
      var t := Rounds(s, ks, m);
      ShiftRowsInverse(SubBytes(t));
      SubBytesInverse(t);
      RoundInverse(Rounds(s, ks, m - 1), ks[m]);
      MixColumnsInverse(ShiftRows(SubBytes(Rounds(s, ks, m - 1))));
    }
  }

  /** Section 5.3: InvCipher undoes Cipher under the same round keys, whatever they are. */
  lemma InvCipherOfCipher(s: State, ks: seq<State>)
    requires |ks| >= 2
    ensures InvCipher(Cipher(s, ks), ks) == s
  {
    hide AddRoundKey, MixColumns, InvMixColumns, ShiftRows, InvShiftRows, SubBytes, InvSubBytes, Cipher;
    InvRoundsOfCipher(s, ks, |ks| - 2);
    var t := Rounds(s, ks, 0);
    ShiftRowsInverse(SubBytes(t));
    SubBytesInverse(t);
    AddRoundKeyTwice(s, ks[0]);
  }

  lemma {:induction false} RoundsOfInvCipher(c: State, ks: seq<State>, n: nat)
    requires n <= |ks| - 2
    ensures Rounds(InvCipher(c, ks), ks, n) == InvSubBytes(InvShiftRows(InvRounds(c, ks, |ks| - 2 - n)))
  {
    hide AddRoundKey, MixColumns, InvMixColumns, ShiftRows, InvShiftRows, SubBytes, InvSubBytes;
    if n == 0 {
      AddRoundKeyTwice(InvSubBytes(InvShiftRows(InvRounds(c, ks, |ks| - 2))), ks[0]);
    } else {
      RoundsOfInvCipher(c, ks, n - 1);
      var t := InvRounds(c, ks, |ks| - 1 - n);
      var u := InvSubBytes(InvShiftRows(InvRounds(c, ks, |ks| - 2 - n)));
      SubBytesInverse(InvShiftRows(t));
      ShiftRowsInverse(t);
      MixColumnsInverse(AddRoundKey(u, ks[n]));
      AddRoundKeyTwice(u, ks[n]);
    }
  }

  /** The other direction: every block is the encryption of its decryption. */
  lemma CipherOfInvCipher(c: State, ks: seq<State>)
    requires |ks| >= 2
    ensures Cipher(InvCipher(c, ks), ks) == c
  {
    hide AddRoundKey, MixColumns, InvMixColumns, ShiftRows, InvShiftRows, SubBytes, InvSubBytes, InvCipher;
    RoundsOfInvCipher(c, ks, |ks| - 2);
    var t := InvRounds(c, ks, 0);
    SubBytesInverse(InvShiftRows(t));
    ShiftRowsInverse(t);
    AddRoundKeyTwice(c, ks[|ks| - 1]);
  }

  lemma {:induction false} EqRoundsAreInvRounds(s: State, dks: seq<State>, ks: seq<State>, n: nat)
    requires DecSchedule(dks, ks) && n <= |ks| - 2
    ensures EqRounds(s, dks, n) == InvRounds(s, ks, n)
  {
    hide AddRoundKey, MixColumns, InvMixColumns, ShiftRows, InvShiftRows, SubBytes, InvSubBytes;
    if n > 0 {
      EqRoundsAreInvRounds(s, dks, ks, n - 1);
      var t := InvRounds(s, ks, n - 1);
      SubShiftCommute(t);
      InvMixColumnsLinear(InvSubBytes(InvShiftRows(t)), ks[|ks| - 1 - n]);
    }
  }

  /** Section 5.3.5: the equivalent inverse cipher under the decryption schedule is InvCipher. */
  lemma EqInvCipherIsInvCipher(s: State, dks: seq<State>, ks: seq<State>)
    requires DecSchedule(dks, ks)
    ensures EqInvCipher(s, dks) == InvCipher(s, ks)
  {
    hide AddRoundKey, MixColumns, InvMixColumns, ShiftRows, InvShiftRows, SubBytes, InvSubBytes;
    EqRoundsAreInvRounds(s, dks, ks, |ks| - 2);
    SubShiftCommute(InvRounds(s, ks, |ks| - 2));
  }
}
