/** The key schedules of src/util/aes.c against sections 5.2 and 5.3.5 of FIPS 197. */
module AesKeys {
  import opened Bytes
  import opened AesField
  import opened AesSbox
  import opened AesWord
  import opened AesMix
  import opened AesCipher
  import opened AesTables
  import opened AesLookup

  const INVALID_KEY_LENGTH := -0x0020

  // ---------- section 5.2 ----------

  function RotWord(c: Col): Col {
    Col(c.b1, c.b2, c.b3, c.b0)
  }

  function KeyColumn(key: seq<bv8>, i: nat): Col
    requires 4 * i + 4 <= |key|
  {
    Col(key[4 * i], key[4 * i + 1], key[4 * i + 2], key[4 * i + 3])
  }

  /** What is added to word i - nk to give word i. */
  ghost function Temp(nk: nat, i: nat, previous: Col): Col
    requires 0 < nk <= i
  {
    if i % nk == 0 then AddCol(SubColumn(RotWord(previous)), Col(Rcon(i / nk - 1), 0, 0, 0))
    else if nk > 6 && i % nk == 4 then SubColumn(previous)
    else previous
  }

  /** Word i of the expanded key. */
  ghost function Expanded(key: seq<bv8>, nk: nat, i: nat): Col
    requires 0 < nk && 4 * nk <= |key|
  {
    if i < nk then KeyColumn(key, i)
    else AddCol(Expanded(key, nk, i - nk), Temp(nk, i, Expanded(key, nk, i - 1)))
  }

  ghost function ExpandedWord(key: seq<bv8>, nk: nat, i: nat): bv32
    requires 0 < nk && 4 * nk <= |key|
  {
    Word(Expanded(key, nk, i))
  }

  /** The nk + 7 round keys of a key of nk words. */
  ghost function RoundKeys(key: seq<bv8>, nk: nat): (ks: seq<State>)
    requires 0 < nk && 4 * nk <= |key|
    ensures |ks| == nk + 7
  {
    seq(nk + 7, r requires 0 <= r => State(Expanded(key, nk, 4 * r), Expanded(key, nk, 4 * r + 1),
                                           Expanded(key, nk, 4 * r + 2), Expanded(key, nk, 4 * r + 3)))
  }

  /** Column j of a list of round keys, as a word. */
  function KeyWord(ks: seq<State>, j: nat): bv32
    requires j < 4 * |ks|
  {
    Word(Column(ks[j / 4], j % 4))
  }

  function Column(s: State, c: nat): Col {
    if c == 0 then s.c0 else if c == 1 then s.c1 else if c == 2 then s.c2 else s.c3
  }

  lemma KeyWordAt(ks: seq<State>, r: nat, c: nat)
    requires r < |ks| && c < 4
    ensures KeyWord(ks, 4 * r + c) == Word(Column(ks[r], c))
  {
    hide Word, Column;
    assert (4 * r + c) / 4 == r && (4 * r + c) % 4 == c;
  }

  // ---------- one step of the expansion ----------

  lemma PlainStep(key: seq<bv8>, nk: nat, i: nat)
    requires 0 < nk <= i && 4 * nk <= |key|
    requires i % nk != 0 && !(nk > 6 && i % nk == 4)
    ensures Xor(ExpandedWord(key, nk, i - nk), ExpandedWord(key, nk, i - 1)) == ExpandedWord(key, nk, i)
  {
    hide Word, AddCol, SubColumn, Xor;
    XorWords(Expanded(key, nk, i - nk), Expanded(key, nk, i - 1));
  }

  lemma SubStep(t: Tables, key: seq<bv8>, nk: nat, i: nat)
    requires t.Ready()
    requires 6 < nk <= i && 4 * nk <= |key| && i % nk == 4
    ensures var w := ExpandedWord(key, nk, i - 1);
            Xor(ExpandedWord(key, nk, i - nk), SubShifts(t, w, w, w, w)) == ExpandedWord(key, nk, i)
  {
    hide Word, AddCol, SubColumn, Xor, SubShifts, t.Ready;
    var c := Expanded(key, nk, i - 1);
    SubShiftsIs(t, c, c, c, c);
    XorWords(Expanded(key, nk, i - nk), SubColumn(c));
  }

  lemma RotStep(t: Tables, key: seq<bv8>, nk: nat, i: nat, j: nat)
    requires t.Ready()
    requires 0 < nk <= i && 4 * nk <= |key| && i % nk == 0 && i / nk == j + 1 && j < 10
    ensures Xor(Xor(ExpandedWord(key, nk, i - nk), t.RCON[j]), SubRotated(t, ExpandedWord(key, nk, i - 1)))
         == ExpandedWord(key, nk, i)
  {
    hide Word, AddCol, SubColumn, Xor, SubRotated, t.Ready, Rcon;
    RconAt(t, j);
    var c, d := Expanded(key, nk, i - nk), Expanded(key, nk, i - 1);
    var r := Col(Rcon(j), 0, 0, 0);
    RotStepColumns(t, c, d, r);
  }

  lemma RconAt(t: Tables, j: nat)
    requires t.Ready() && j < 10
    ensures t.RCON[j] == Word(Col(Rcon(j), 0, 0, 0))
  {
    hide Word, Rcon, SBox, InvSBox, Forward, Reverse, ByteOf;
  }

  lemma RotStepColumns(t: Tables, c: Col, d: Col, r: Col)
    requires t.Ready()
    ensures Xor(Xor(Word(c), Word(r)), SubRotated(t, Word(d))) == Word(AddCol(c, AddCol(SubColumn(RotWord(d)), r)))
  {
    hide Word, AddCol, SubColumn, Xor, SubRotated, t.Ready;
    SubRotatedIs(t, d);
    XorWords(c, r);
    XorWords(AddCol(c, r), SubColumn(RotWord(d)));
    AddColLaws(c, r, SubColumn(RotWord(d)));
    AddColCommutes(r, SubColumn(RotWord(d)));
  }

  lemma AddColCommutes(c: Col, d: Col)
    ensures AddCol(c, d) == AddCol(d, c)
  {
    hide Add;
    AddLaws(c.b0, d.b0, 0);
    AddLaws(c.b1, d.b1, 0);
    AddLaws(c.b2, d.b2, 0);
    AddLaws(c.b3, d.b3, 0);
  }

  lemma DecKeysEnds(ks: seq<State>, c: nat)
    requires |ks| >= 2 && c < 4
    ensures KeyWord(DecKeys(ks), c) == KeyWord(ks, 4 * (|ks| - 1) + c)
    ensures KeyWord(DecKeys(ks), 4 * (|ks| - 1) + c) == KeyWord(ks, c)
  {
    hide Word, InvMixColumns;
  }

  lemma DecKeysInner(t: Tables, ks: seq<State>, r: nat, c: nat)
    requires t.Ready() && 1 <= r < |ks| - 1 && c < 4
    ensures InvMixWord(t, KeyWord(ks, 4 * (|ks| - 1 - r) + c)) == KeyWord(DecKeys(ks), 4 * r + c)
  {
    hide t.Ready, Word, InvMixColumn, InvMixWord, KeyWord, DecKeys;
    var s := ks[|ks| - 1 - r];
    KeyWordAt(ks, |ks| - 1 - r, c);
    KeyWordAt(DecKeys(ks), r, c);
    assert Column(InvMixColumns(s), c) == InvMixColumn(Column(s, c));
    InvMixWordIs(t, Column(s, c));
  }

  /** GET_UINT32_LE at byte 4i of the key. */
  function LoadLE(b: seq<bv8>, i: nat): bv32
    requires i + 4 <= |b|
  {
    Word(Col(b[i], b[i + 1], b[i + 2], b[i + 3]))
  }

  /** utils_aes_context; rk always points to the start of buf once a key is set. */
  class AesContext {
    var nr: int
    const buf: array<bv32>

    /** utils_aes_init */
    constructor ()
      ensures nr == 0 && buf.Length == 68 && fresh(buf)
    {
      nr := 0;
      buf := new bv32[68](_ => 0);
    }

    /** buf holds the first n words of the expanded key. */
    ghost predicate Holds(key: seq<bv8>, nk: nat, n: nat)
      requires buf.Length == 68 && n <= 68 && 0 < nk && 4 * nk <= |key|
      reads buf
    {
      forall j: nat :: j < n ==> buf[j] == ExpandedWord(key, nk, j)
    }

    /** The round keys ks are in force: nr + 1 of them, four words each. */
    ghost predicate Loaded(ks: seq<State>)
      reads this, buf
    {
      && buf.Length == 68
      && nr in {10, 12, 14} && |ks| == nr + 1
      && forall j: nat :: j < 4 * |ks| ==> buf[j] == KeyWord(ks, j)
    }

    method LoadKey(key: seq<bv8>, nk: nat)
      requires buf.Length == 68 && nk in {4, 6, 8} && 4 * nk <= |key|
      modifies buf
      ensures Holds(key, nk, nk)
    {
      hide Word;
      for i := 0 to nk
        invariant Holds(key, nk, i)
      {
        buf[i] := LoadLE(key, 4 * i);
      }
    }

    /** RK[j] = RK[j - nk] ^ RK[j - 1] */
    method PutPlain(ghost t: Tables, ghost key: seq<bv8>, nk: nat, j: nat)
      requires t.Shape() && t.Ready() && buf !in t.Arrays()
      requires buf.Length == 68 && 0 < nk <= j < 68 && 4 * nk <= |key| && Holds(key, nk, j)
      requires j % nk != 0 && !(nk > 6 && j % nk == 4)
      modifies buf
      ensures Holds(key, nk, j + 1) && t.Ready()
    {
      hide t.Ready, t.Shape, ExpandedWord, Xor;
      PlainStep(key, nk, j);
      buf[j] := Xor(buf[j - nk], buf[j - 1]);
    }

    /** RK[j] = RK[j - nk] ^ RCON[i] ^ the S-box of the rotated RK[j - 1] */
    method PutRotated(t: Tables, ghost key: seq<bv8>, nk: nat, j: nat, i: nat)
      requires t.Shape() && t.Ready() && buf !in t.Arrays()
      requires buf.Length == 68 && 0 < nk <= j < 68 && 4 * nk <= |key| && Holds(key, nk, j)
      requires j % nk == 0 && j / nk == i + 1 && i < 10
      modifies buf
      ensures Holds(key, nk, j + 1) && t.Ready()
    {
      hide t.Ready, ExpandedWord, Xor, SubRotated;
      RotStep(t, key, nk, j, i);
      buf[j] := Xor(Xor(buf[j - nk], t.RCON[i]), SubRotated(t, buf[j - 1]));
    }

    /** RK[j] = RK[j - nk] ^ the S-box of RK[j - 1] */
    method PutSubstituted(t: Tables, ghost key: seq<bv8>, nk: nat, j: nat)
      requires t.Shape() && t.Ready() && buf !in t.Arrays()
      requires buf.Length == 68 && 6 < nk <= j < 68 && 4 * nk <= |key| && Holds(key, nk, j)
      requires j % nk == 4
      modifies buf
      ensures Holds(key, nk, j + 1) && t.Ready()
    {
      hide t.Ready, t.Shape, ExpandedWord, Xor, SubShifts;
      SubStep(t, key, nk, j);
      buf[j] := Xor(buf[j - nk], SubShifts(t, buf[j - 1], buf[j - 1], buf[j - 1], buf[j - 1]));
    }

    method Expand128(t: Tables, ghost key: seq<bv8>)
      requires t.Shape() && t.Ready() && buf.Length == 68 && buf !in t.Arrays() && 16 <= |key|
      requires Holds(key, 4, 4)
      modifies buf
      ensures Holds(key, 4, 44)
    {
      hide t.Ready, t.Shape, Holds;
      for i := 0 to 10
        invariant t.Ready() && Holds(key, 4, 4 * i + 4)
      {
        var p := 4 * i;
        PutRotated(t, key, 4, p + 4, i);
        PutPlain(t, key, 4, p + 5);
        PutPlain(t, key, 4, p + 6);
        PutPlain(t, key, 4, p + 7);
      }
    }

    method Expand192(t: Tables, ghost key: seq<bv8>)
      requires t.Shape() && t.Ready() && buf.Length == 68 && buf !in t.Arrays() && 24 <= |key|
      requires Holds(key, 6, 6)
      modifies buf
      ensures Holds(key, 6, 54)
    {
      hide t.Ready, t.Shape, Holds;
      for i := 0 to 8
        invariant t.Ready() && Holds(key, 6, 6 * i + 6)
      {
        var p := 6 * i;
        PutRotated(t, key, 6, p + 6, i);
        PutPlain(t, key, 6, p + 7);
        PutPlain(t, key, 6, p + 8);
        PutPlain(t, key, 6, p + 9);
        PutPlain(t, key, 6, p + 10);
        PutPlain(t, key, 6, p + 11);
      }
    }

    method Expand256(t: Tables, ghost key: seq<bv8>)
      requires t.Shape() && t.Ready() && buf.Length == 68 && buf !in t.Arrays() && 32 <= |key|
      requires Holds(key, 8, 8)
      modifies buf
      ensures Holds(key, 8, 64)
    {
      hide t.Ready, t.Shape, Holds;
      for i := 0 to 7
        invariant t.Ready() && Holds(key, 8, 8 * i + 8)
      {
        var p := 8 * i;
        PutRotated(t, key, 8, p + 8, i);
        PutPlain(t, key, 8, p + 9);
        PutPlain(t, key, 8, p + 10);
        PutPlain(t, key, 8, p + 11);
        PutSubstituted(t, key, 8, p + 12);
        PutPlain(t, key, 8, p + 13);
        PutPlain(t, key, 8, p + 14);
        PutPlain(t, key, 8, p + 15);
      }
    }

    /** utils_aes_setkey_enc: every word it writes, including those past the last round key, is a
        word of the expanded key, and the last one written is inside buf. */
    method SetKeyEnc(t: Tables, key: seq<bv8>, keybits: int) returns (ret: int)
      requires t.Valid() && buf.Length == 68 && buf !in t.Repr() && this !in t.Repr()
      requires keybits in {128, 192, 256} ==> keybits <= 8 * |key|
      modifies `nr, buf, t.Repr()
      ensures t.Valid()
      ensures keybits in {128, 192, 256} ==>
                ret == 0 && t.Ready() && nr == keybits / 32 + 6 && Loaded(RoundKeys(key, keybits / 32))
      ensures keybits !in {128, 192, 256} ==> ret == INVALID_KEY_LENGTH && nr == old(nr) && unchanged(buf, t.Repr())
    {
      hide ExpandedWord, t.Ready, Expanded, Loaded, RoundKeys;
      if keybits == 128 {
        nr := 10;
      } else if keybits == 192 {
        nr := 12;
      } else if keybits == 256 {
        nr := 14;
      } else {
        return INVALID_KEY_LENGTH;
      }
      t.EnsureGenerated();
      Expand(t, key);
      ret := 0;
    }

    /** From the loading of the key on. */
    method Expand(t: Tables, key: seq<bv8>)
      requires t.Shape() && t.Ready() && buf.Length == 68 && buf !in t.Repr()
      requires nr in {10, 12, 14} && 4 * (nr - 6) <= |key|
      modifies buf
      ensures Loaded(RoundKeys(key, nr - 6))
    {
      hide ExpandedWord, t.Ready, Expanded, Holds, Loaded, RoundKeys;
      LoadKey(key, nr - 6);
      if nr == 10 {
        Expand128(t, key);
        HeldIsLoaded(key, 4, 44);
      } else if nr == 12 {
        Expand192(t, key);
        HeldIsLoaded(key, 6, 54);
      } else {
        Expand256(t, key);
        HeldIsLoaded(key, 8, 64);
      }
    }

    lemma HeldIsLoaded(key: seq<bv8>, nk: nat, n: nat)
      requires buf.Length == 68 && nk in {4, 6, 8} && 4 * nk <= |key| && nr == nk + 6
      requires 4 * (nk + 7) <= n <= 68 && Holds(key, nk, n)
      ensures Loaded(RoundKeys(key, nk))
    {
      hide Expanded, Word;
      var ks := RoundKeys(key, nk);
      forall j: nat | j < 4 * |ks|
        ensures buf[j] == KeyWord(ks, j)
      {
        assert j == 4 * (j / 4) + j % 4;
      }
    }

    /** utils_aes_setkey_dec: the schedule of section 5.3.5, from a temporary encryption schedule. */
    method SetKeyDec(t: Tables, key: seq<bv8>, keybits: int) returns (ret: int)
      requires t.Valid() && buf.Length == 68 && buf !in t.Repr() && this !in t.Repr()
      requires keybits in {128, 192, 256} ==> keybits <= 8 * |key|
      modifies `nr, buf, t.Repr()
      ensures t.Valid()
      ensures keybits in {128, 192, 256} ==>
                ret == 0 && t.Ready() && nr == keybits / 32 + 6
                && Loaded(DecKeys(RoundKeys(key, keybits / 32)))
      ensures keybits !in {128, 192, 256} ==> ret == INVALID_KEY_LENGTH && nr == old(nr) && unchanged(buf, t.Repr())
    {
      hide t.Ready, RoundKeys;
      var cty := new AesContext();
      ret := cty.SetKeyEnc(t, key, keybits);
      if ret != 0 {
        return;
      }
      nr := cty.nr;
      InvertSchedule(t, cty, RoundKeys(key, keybits / 32));
    }

    /** The four `*RK++ = *SK++` of the first and of the last round key. */
    method CopyRound(cty: AesContext, ghost ks: seq<State>, to: nat, from: nat)
      requires buf.Length == 68 && cty.buf != buf && cty.Loaded(ks) && to + from == |ks| - 1 && (to == 0 || from == 0)
      requires HoldsRounds(DecKeys(ks), 4 * to)
      modifies buf
      ensures HoldsRounds(DecKeys(ks), 4 * to + 4)
    {
      hide KeyWord, DecKeys;
      for c := 0 to 4
        invariant cty.Loaded(ks)
        invariant HoldsRounds(DecKeys(ks), 4 * to + c)
      {
        DecKeysEnds(ks, c);
        buf[4 * to + c] := cty.buf[4 * from + c];
      }
    }

    /** The inner loop over j: one round key through InvMixColumns. */
    method InvertRound(t: Tables, cty: AesContext, ghost ks: seq<State>, r: nat)
      requires t.Shape() && t.Ready() && buf !in t.Arrays()
      requires buf.Length == 68 && cty.buf != buf && cty.Loaded(ks) && 1 <= r < cty.nr
      requires HoldsRounds(DecKeys(ks), 4 * r)
      modifies buf
      ensures HoldsRounds(DecKeys(ks), 4 * r + 4) && t.Ready()
    {
      hide t.Ready, KeyWord, DecKeys, InvMixWord;
      for c := 0 to 4
        invariant t.Ready() && cty.Loaded(ks)
        invariant HoldsRounds(DecKeys(ks), 4 * r + c)
      {
        var w := cty.buf[4 * (cty.nr - r) + c];
        DecKeysInner(t, ks, r, c);
        buf[4 * r + c] := InvMixWord(t, w);
      }
    }

    /** The three loops: SK walks cty.buf backwards round by round while RK walks buf forwards. */
    method InvertSchedule(t: Tables, cty: AesContext, ghost ks: seq<State>)
      requires t.Shape() && t.Ready() && buf.Length == 68 && buf !in t.Arrays()
      requires cty.buf != buf && cty.Loaded(ks) && nr == cty.nr
      modifies buf
      ensures t.Ready() && Loaded(DecKeys(ks))
    {
      hide t.Ready, t.Shape, KeyWord, DecKeys;
      CopyRound(cty, ks, 0, nr);
      for r := 1 to nr
        invariant t.Ready() && cty.Loaded(ks)
        invariant HoldsRounds(DecKeys(ks), 4 * r)
      {
        InvertRound(t, cty, ks, r);
      }
      CopyRound(cty, ks, nr, 0);
    }

    /** buf holds the first n words of the round keys ks. */
    ghost predicate HoldsRounds(ks: seq<State>, n: nat)
      reads buf
    {
      buf.Length == 68 && n <= 68 && n <= 4 * |ks| && forall j: nat :: j < n ==> buf[j] == KeyWord(ks, j)
    }
  }
}
