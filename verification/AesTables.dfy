/** The run-time table generation of src/util/aes.c: pow/log tables over the powers of {03},
    round constants, both S-boxes, and the eight T-tables. */
module AesTables {
  import opened Bytes
  import opened AesField
  import opened AesSbox
  import opened AesWord

  /** {02}^i, the round constant of section 5.2 of FIPS 197. */
  ghost function Rcon(i: nat): bv8 {
    if i == 0 then 1 else XTime(Rcon(i - 1))
  }

  lemma {:induction false} MulBitsXTime(x: bv8, y: bv8, n: nat)
    ensures MulBits(XTime(x), y, n) == XTime(MulBits(x, y, n))
    decreases n
  {
    hide XTime, Add, Half, LowBitTimes;
    XTimeZero();
    if n > 0 {
      assert LowBitTimes(y, XTime(x)) == XTime(LowBitTimes(y, x)) by { LowBitXTime(y, x); }
      MulBitsXTime(XTime(x), Half(y), n - 1);
      XTimeAdd(LowBitTimes(y, x), MulBits(XTime(x), Half(y), n - 1));
    }
  }

  lemma LowBitXTime(y: bv8, x: bv8)
    ensures LowBitTimes(y, XTime(x)) == XTime(LowBitTimes(y, x))
  {
    hide XTime;
    XTimeZero();
  }

  /** The round constants are the powers of {02}: exponents add. */
  lemma {:induction false} RconSum(m: nat, n: nat)
    ensures Mul(Rcon(m), Rcon(n)) == Rcon(m + n)
  {
    hide XTime, MulBits;
    if m == 0 {
      OneTimes(Rcon(n));
    } else {
      RconSum(m - 1, n);
      MulBitsXTime(Rcon(m - 1), Rcon(n), 8);
    }
  }

  /** They start with {01} and {02}, and the tenth, the last one used, is {36}. */
  lemma RconValues()
    ensures Rcon(0) == 0x01 && Rcon(1) == 0x02 && Rcon(2) == 0x04 && Rcon(3) == 0x08 && Rcon(4) == 0x10
    ensures Rcon(5) == 0x20 && Rcon(6) == 0x40 && Rcon(7) == 0x80 && Rcon(8) == 0x1b && Rcon(9) == 0x36
  {}

  /** What one substituted byte in row 0 contributes to MixColumns, and to InvMixColumns. */
  ghost function ForwardColumn(x: bv8): Col {
    var s := SBox(x);
    Col(Mul(0x02, s), s, s, Mul(0x03, s))
  }

  ghost function ReverseColumn(y: bv8): Col {
    var x := InvSBox(y);
    Col(Mul(0x0E, x), Mul(0x09, x), Mul(0x0D, x), Mul(0x0B, x))
  }

  /** The contribution of a byte one row further down. */
  function Down(c: Col): Col {
    Col(c.b3, c.b0, c.b1, c.b2)
  }

  function DownBy(j: nat, c: Col): Col {
    if j == 0 then c else Down(DownBy(j - 1, c))
  }

  /** Entry k of FTj and of RTj. */
  ghost function Forward(j: nat, k: nat): bv32
    requires k < 256
  {
    Word(DownBy(j, ForwardColumn(ByteOf(k))))
  }

  ghost function Reverse(j: nat, k: nat): bv32
    requires k < 256
  {
    Word(DownBy(j, ReverseColumn(ByteOf(k))))
  }

  lemma RotatedEntry(j: nat, k: nat)
    requires k < 256
    ensures Rotl8(Forward(j, k)) == Forward(j + 1, k)
    ensures Rotl8(Reverse(j, k)) == Reverse(j + 1, k)
  {
    hide Word, Rotl8, ForwardColumn, ReverseColumn;
    RotlWord(DownBy(j, ForwardColumn(ByteOf(k))));
    RotlWord(DownBy(j, ReverseColumn(ByteOf(k))));
  }

  /** The forward entry as the loop computes it from FSb[i]. */
  function ForwardWord(x: bv8): bv32 {
    var y := XTime(x);
    var z := y ^ x;
    Shifts(y, x, x, z)
  }

  /** pow[k] is {03}^k and log[x] is a logarithm of x, for every non-zero byte x. */
  ghost predicate LogTables(pow: array<bv8>, log: array<int>)
    reads pow, log
  {
    && pow.Length == 256 && log.Length == 256
    && (forall k: nat :: k < 256 ==> pow[k] == Power(k))
    && (forall k: nat :: 1 <= k < 256 ==> 0 <= log[k] <= 255 && Power(log[k]) == ByteOf(k))
  }

  /** The macro MUL. */
  function LogMul(pow: array<bv8>, log: array<int>, x: bv8, y: bv8): (r: bv8)
    requires LogTables(pow, log)
    reads pow, log
    ensures r == Mul(x, y)
  {
    LogMulIsMul(pow, log, x, y);
    if x != 0 && y != 0 then pow[(log[Ix(x)] + log[Ix(y)]) % 255] else 0
  }

  lemma LogAt(pow: array<bv8>, log: array<int>, x: bv8)
    requires LogTables(pow, log) && x != 0
    ensures 1 <= Ix(x) && 0 <= log[Ix(x)] <= 255 && Power(log[Ix(x)]) == x
  {
    hide Power, Ix, ByteOf;
    IxInjective(x, 0);
    IxZero();
    IxByte(x);
  }

  lemma ReducedSum(m: nat, n: nat)
    ensures Power((m + n) % 255) == Mul(Power(m), Power(n))
  {
    hide Power, Mul;
    FullPower();
    PowerPeriod(255, (m + n) / 255, (m + n) % 255);
    PowerSum(m, n);
  }

  lemma LogMulIsMul(pow: array<bv8>, log: array<int>, x: bv8, y: bv8)
    requires LogTables(pow, log)
    ensures x != 0 && y != 0 ==>
              && 0 <= log[Ix(x)] <= 255 && 0 <= log[Ix(y)] <= 255
              && pow[(log[Ix(x)] + log[Ix(y)]) % 255] == Mul(x, y)
    ensures x == 0 || y == 0 ==> Mul(x, y) == 0
  {
    ZeroTimes(y, 8);
    hide MulBits, Power, Ix, ByteOf;
    if x != 0 {
      if y != 0 {
        LogAt(pow, log, x);
        LogAt(pow, log, y);
        ReducedSum(log[Ix(x)], log[Ix(y)]);
      } else {
        var m := LogExists(x);
        MulPower(m, y);
        ShiftedZero(m);
      }
    }
  }

  class Tables {
    /** aes_init_done */
    var initDone: bool
    const FSb: array<bv8>
    const RSb: array<bv8>
    const FT0: array<bv32>
    const FT1: array<bv32>
    const FT2: array<bv32>
    const FT3: array<bv32>
    const RT0: array<bv32>
    const RT1: array<bv32>
    const RT2: array<bv32>
    const RT3: array<bv32>
    const RCON: array<bv32>

    constructor ()
      ensures Shape() && !initDone
      ensures fresh(Repr())
    {
      initDone := false;
      FSb, RSb := new bv8[256], new bv8[256];
      FT0, FT1, FT2, FT3 := new bv32[256], new bv32[256], new bv32[256], new bv32[256];
      RT0, RT1, RT2, RT3 := new bv32[256], new bv32[256], new bv32[256], new bv32[256];
      RCON := new bv32[10];
    }

    ghost function Arrays(): set<object> {
      {FSb as object, RSb, FT0, FT1, FT2, FT3, RT0, RT1, RT2, RT3, RCON}
    }

    ghost function Repr(): set<object> {
      {this} + Arrays()
    }

    /** The static arrays: their sizes, and that they are eleven different arrays. */
    ghost predicate Shape() {
      && FSb.Length == RSb.Length == 256
      && FT0.Length == FT1.Length == FT2.Length == FT3.Length == 256
      && RT0.Length == RT1.Length == RT2.Length == RT3.Length == 256
      && RCON.Length == 10
      && FSb != RSb
      && FT0 !in {FT1, FT2, FT3, RT0, RT1, RT2, RT3, RCON}
      && FT1 !in {FT2, FT3, RT0, RT1, RT2, RT3, RCON}
      && FT2 !in {FT3, RT0, RT1, RT2, RT3, RCON}
      && FT3 !in {RT0, RT1, RT2, RT3, RCON}
      && RT0 !in {RT1, RT2, RT3, RCON}
      && RT1 !in {RT2, RT3, RCON}
      && RT2 !in {RT3, RCON}
      && RT3 != RCON
    }

    ghost predicate SBoxReady()
      requires Shape()
      reads FSb, RSb
    {
      forall k: nat :: k < 256 ==> FSb[k] == SBox(ByteOf(k)) && RSb[k] == InvSBox(ByteOf(k))
    }

    ghost predicate ForwardReady(n: nat)
      requires Shape() && n <= 256
      reads FT0, FT1, FT2, FT3
    {
      forall k: nat :: k < n ==>
        FT0[k] == Forward(0, k) && FT1[k] == Forward(1, k) && FT2[k] == Forward(2, k) && FT3[k] == Forward(3, k)
    }

    ghost predicate ReverseReady(n: nat)
      requires Shape() && n <= 256
      reads RT0, RT1, RT2, RT3
    {
      forall k: nat :: k < n ==>
        RT0[k] == Reverse(0, k) && RT1[k] == Reverse(1, k) && RT2[k] == Reverse(2, k) && RT3[k] == Reverse(3, k)
    }

    ghost predicate RconReady()
      requires Shape()
      reads RCON
    {
      forall i: nat :: i < 10 ==> RCON[i] == Word(Col(Rcon(i), 0, 0, 0))
    }

    /** Every table holds what FIPS 197 says it should. */
    ghost predicate Ready()
      reads Arrays()
    {
      Shape() && SBoxReady() && ForwardReady(256) && ReverseReady(256) && RconReady()
    }

    /** The static state: either untouched, or fully generated. */
    ghost predicate Valid()
      reads Repr()
    {
      Shape() && (initDone ==> Ready())
    }

    method GenLogs() returns (pow: array<bv8>, log: array<int>)
      ensures LogTables(pow, log)
      ensures fresh(pow) && fresh(log)
    {
      hide Triple, XTime, Ix, ByteOf, Power, PowerIx;
      pow, log := new bv8[256], new int[256];
      var x: bv8 := 1;
      PowerZero();
      for i := 0 to 256
        invariant x == Power(i)
        invariant forall k: nat :: k < i ==> pow[k] == Power(k)
        invariant forall k: nat :: k < i ==> LogOk(log, PowerIx(k))
      {
        pow[i] := x;
        assert Ix(x) == PowerIx(i) by { PowerIxIs(i); }
        log[Ix(x)] := i;
        x := NextPower(x);
        PowerSucc(i);
      }
      forall k: nat | 1 <= k < 256
        ensures 0 <= log[k] <= 255 && Power(log[k]) == ByteOf(k)
      {
        var j := LogOfIndex(k);
        IndexOfLog(k, log[k]);
      }
    }

    /** The entry at the index of some power is a logarithm of that power. */
    static ghost predicate LogOk(log: array<int>, i: nat)
      requires i < log.Length
      reads log
    {
      0 <= log[i] <= 255 && PowerIx(log[i]) == i
    }

    static lemma PowerIxIs(i: nat)
      ensures PowerIx(i) == Ix(Power(i))
    {}

    static lemma LogOfIndex(k: nat) returns (j: nat)
      requires 1 <= k < 256
      ensures j < 256 && PowerIx(j) == k
    {
      hide Power, Ix, ByteOf;
      ByteIx(k);
      IxZero();
      j := LogExists(ByteOf(k));
    }

    static lemma IndexOfLog(k: nat, v: nat)
      requires k < 256 && PowerIx(v) == k
      ensures Power(v) == ByteOf(k)
    {
      hide Power, Ix, ByteOf;
      IxByte(Power(v));
    }

    static lemma PowerSucc(i: nat)
      ensures Power(i + 1) == Triple(Power(i))
    {}

    /** x ^ XTIME(x), reduced to a byte. */
    static function NextPower(x: bv8): (y: bv8)
      ensures y == Triple(x)
    {
      x ^ XTime(x)
    }

    method GenRcon()
      requires Shape()
      modifies RCON
      ensures RconReady()
    {
      hide XTime, Word;
      var x: bv8 := 1;
      for i := 0 to 10
        invariant x == Rcon(i)
        invariant forall k: nat :: k < i ==> RCON[k] == Word(Col(Rcon(k), 0, 0, 0))
      {
        RCON[i] := x as bv32;
        assert RCON[i] == Word(Col(x, 0, 0, 0)) by { LowWord(x); }
        x := XTime(x);
      }
    }

    static lemma LowWord(x: bv8)
      ensures x as bv32 == Word(Col(x, 0, 0, 0))
    {}

    /** One forward S-box entry: the affine map of pow[255 - log[i]] by four rotations. */
    static method SBoxEntry(pow: array<bv8>, log: array<int>, i: nat) returns (x: bv8)
      requires LogTables(pow, log) && 1 <= i < 256
      ensures x == SBox(ByteOf(i))
    {
      x := pow[255 - log[i]];
      ghost var inv := x;
      var y := x;
      y := Rotl(y);
      x := x ^ y;
      y := Rotl(y);
      x := x ^ y;
      y := Rotl(y);
      x := x ^ y;
      y := Rotl(y);
      x := x ^ (y ^ 0x63);
      assert x == Affine(inv) by { AffineByRotations(inv); }
      assert inv == Inverse(ByteOf(i)) by {
        hide Power, Affine, ByteOf;
        InverseOfPower(log[i]);
      }
    }

    method GenSBoxes(pow: array<bv8>, log: array<int>)
      requires Shape() && LogTables(pow, log)
      requires pow !in Arrays() && log !in Arrays()
      modifies FSb, RSb
      ensures SBoxReady()
    {
      hide SBox, InvSBox, Ix, ByteOf, LogTables;
      FSb[0x00] := 0x63;
      RSb[0x63] := 0x00;
      FirstEntry();
      for i := 1 to 256
        invariant LogTables(pow, log)
        invariant forall k: nat :: k < i ==> FSb[k] == SBox(ByteOf(k))
        invariant forall k: nat :: k < i ==> RSb[Ix(SBox(ByteOf(k)))] == ByteOf(k)
      {
        var x := SBoxEntry(pow, log, i);
        FSb[i] := x;
        RSb[Ix(x)] := ByteOf(i);
        forall k: nat | k < i
          ensures Ix(SBox(ByteOf(k))) != Ix(x)
        {
          SBoxDistinct(k, i);
        }
      }
      forall k: nat | k < 256
        ensures RSb[k] == InvSBox(ByteOf(k))
      {
        var b := InvSBox(ByteOf(k));
        IxByte(b);
        SBoxPermutes(ByteOf(k));
        ByteIx(k);
        assert RSb[Ix(SBox(ByteOf(Ix(b))))] == ByteOf(Ix(b));
      }
    }

    static lemma FirstEntry()
      ensures SBox(ByteOf(0)) == 0x63 && ByteOf(0) == 0 && Ix(0x63) == 0x63
    {}

    static lemma SBoxDistinct(k: nat, i: nat)
      requires k < i < 256
      ensures Ix(SBox(ByteOf(k))) != Ix(SBox(ByteOf(i)))
    {
      hide SBox, InvSBox, Ix, ByteOf;
      ByteIx(k);
      ByteIx(i);
      SBoxPermutes(ByteOf(k));
      SBoxPermutes(ByteOf(i));
      IxInjective(SBox(ByteOf(k)), SBox(ByteOf(i)));
    }

    static lemma ForwardEntry(i: nat, x: bv8)
      requires i < 256 && x == SBox(ByteOf(i))
      ensures ForwardWord(x) == Forward(0, i)
    {
      SmallMultiples(x);
      assert XTime(x) ^ x == Triple(x);
      hide XTime, Triple, Mul, Word, Shifts, SBox;
      ShiftsIsWord(XTime(x), x, x, XTime(x) ^ x);
    }

    static lemma SmallMultiples(x: bv8)
      ensures Mul(0x01, x) == x && Mul(0x02, x) == XTime(x) && Mul(0x03, x) == Triple(x)
    {
      OneTimes(x);
      assert Power(1) == 0x03;
      MulPower(1, x);
      assert Shifted(0, x) == x;
      assert Add(3, 1) == 2;
      assert XTime(x) == Add(Triple(x), x) by { TripleMinusOne(x); }
      hide XTime, Triple, Mul, Add, Power;
      MulDistributes(3, 1, x, x);
    }

    static lemma TripleMinusOne(x: bv8)
      ensures XTime(x) == Add(Triple(x), x)
    {
      hide Add, XTime;
      AddLaws(x, XTime(x), x);
      AddTwice(XTime(x), x);
    }

    static lemma ReverseEntry(i: nat, x: bv8)
      requires i < 256 && x == InvSBox(ByteOf(i))
      ensures Shifts(Mul(0x0E, x), Mul(0x09, x), Mul(0x0D, x), Mul(0x0B, x)) == Reverse(0, i)
    {
      hide Mul, Word, InvSBox, Shifts;
      ShiftsIsWord(Mul(0x0E, x), Mul(0x09, x), Mul(0x0D, x), Mul(0x0B, x));
    }

    method SetForward(i: nat)
      requires Shape() && SBoxReady() && i < 256 && ForwardReady(i)
      modifies FT0, FT1, FT2, FT3
      ensures ForwardReady(i + 1)
    {
      hide Forward, Reverse, Rotl8, SBox, InvSBox, ByteOf, ForwardWord;
      var x := FSb[i];
      FT0[i] := ForwardWord(x);
      FT1[i] := Rotl8(FT0[i]);
      FT2[i] := Rotl8(FT1[i]);
      FT3[i] := Rotl8(FT2[i]);
      ForwardEntry(i, x);
      RotatedEntry(0, i);
      RotatedEntry(1, i);
      RotatedEntry(2, i);
    }

    method SetReverse(i: nat, pow: array<bv8>, log: array<int>)
      requires Shape() && LogTables(pow, log) && SBoxReady() && i < 256 && ReverseReady(i)
      modifies RT0, RT1, RT2, RT3
      ensures ReverseReady(i + 1)
    {
      hide Forward, Reverse, Rotl8, Shifts, SBox, InvSBox, Mul, ByteOf, LogTables, LogMul;
      var x := RSb[i];
      RT0[i] := Shifts(LogMul(pow, log, 0x0E, x), LogMul(pow, log, 0x09, x),
                       LogMul(pow, log, 0x0D, x), LogMul(pow, log, 0x0B, x));
      RT1[i] := Rotl8(RT0[i]);
      RT2[i] := Rotl8(RT1[i]);
      RT3[i] := Rotl8(RT2[i]);
      ReverseEntry(i, x);
      RotatedEntry(0, i);
      RotatedEntry(1, i);
      RotatedEntry(2, i);
    }

    method GenRounds(pow: array<bv8>, log: array<int>)
      requires Shape() && LogTables(pow, log) && SBoxReady()
      requires pow !in Arrays() && log !in Arrays()
      modifies FT0, FT1, FT2, FT3, RT0, RT1, RT2, RT3
      ensures ForwardReady(256) && ReverseReady(256)
    {
      hide ForwardReady, ReverseReady, LogTables, SBoxReady;
      NoRoundsYet();
      for i := 0 to 256
        invariant LogTables(pow, log) && SBoxReady()
        invariant ForwardReady(i) && ReverseReady(i)
      {
        SetForward(i);
        SetReverse(i, pow, log);
      }
    }

    lemma NoRoundsYet()
      requires Shape()
      ensures ForwardReady(0) && ReverseReady(0)
    {}

    /** aes_gen_tables */
    method Generate()
      requires Shape()
      modifies Arrays()
      ensures Ready()
    {
      hide LogTables;
      var pow, log := GenLogs();
      GenRcon();
      GenSBoxes(pow, log);
      GenRounds(pow, log);
    }

    /** The guard in utils_aes_setkey_enc: the tables are generated once, before their first use. */
    method EnsureGenerated()
      requires Valid()
      modifies Repr()
      ensures Valid() && Ready() && initDone
      ensures old(initDone) ==> unchanged(Repr())
    {
      hide Ready;
      if !initDone {
        Generate();
        initDone := true;
      }
    }
  }
}
