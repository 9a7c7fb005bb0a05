/** src/util/md5.c: the buffering context with its two-word byte counter, and the hex printer. */
module Md5Impl {
  import opened Division
  import opened Bytes
  import opened Wrappers
  import opened BlockHash
  import opened Md5Spec
  import opened Md5Rounds

  function VarsOf(s: seq<Word>): Vars
    requires |s| == 4
  {
    Vars(s[0], s[1], s[2], s[3])
  }

  /** The 32-bit words are kept as naturals: masks are remainders, shifts are quotients and
      multiples, and the `|` of disjoint bits is a sum. */
  function Add32(x: nat, y: nat): (z: nat)
    ensures z < TWO_32
  {
    (x + y) % TWO_32
  }

  /** iot_md5_padding */
  function PaddingTable(): (p: seq<bv8>)
    ensures |p| == 64
  {
    [0x80] + Zeros(63)
  }

  class Md5Context {
    var total0: nat
    var total1: nat
    const state: array<Word>
    const buffer: array<bv8>
    ghost var msg: seq<bv8>

    ghost predicate Shape() {
      state.Length == 4 && buffer.Length == 64
    }

    /** What the two counter words say. */
    ghost function Total(): nat
      reads this
    {
      total0 + TWO_32 * total1
    }

    ghost predicate Valid()
      reads this, state, buffer
    {
      && Shape()
      && total0 == |msg| % TWO_32 && total1 < TWO_32
      && Absorbed(Compress, INITIAL, msg, VarsOf(state[..]), buffer[..|msg| % 64])
    }

    /** The two words together count the message bytes modulo 2^64. */
    ghost predicate Counted()
      reads this
    {
      Total() == |msg| % TWO_64
    }

    /** utils_md5_init and utils_md5_starts */
    constructor ()
      ensures Valid() && Total() == 0 && Counted() && msg == []
      ensures fresh(state) && fresh(buffer)
    {
      total0, total1 := 0, 0;
      state := new Word[4] [0x67452301, 0xEFCDAB89, 0x98BADCFE, 0x10325476];
      buffer := new bv8[64](_ => 0);
      msg := [];
      new;
      AbsorbedNothing(Compress, INITIAL);
      assert VarsOf(state[..]) == INITIAL;
      assert buffer[..0] == [];
    }

    /** The 64 operations of utils_md5_process. */
    static method AllOperations(v0: Vars, X: seq<Word>) returns (v: Vars)
      requires |X| == 16
      ensures v == Steps(v0, X, 4 * |X|)
    {
      hide Steps;
      ghost var n: nat := 0;
      NoSteps(v0, X);
      v := Operations0(v0, v0, X, n);
      v := Operations8(v0, v, X, n + 8);
      v := Operations16(v0, v, X, n + 16);
      v := Operations24(v0, v, X, n + 24);
      v := Operations32(v0, v, X, n + 32);
      v := Operations40(v0, v, X, n + 40);
      v := Operations48(v0, v, X, n + 48);
      v := Operations56(v0, v, X, n + 56);
    }

    /** utils_md5_process */
    method Process(data: Block)
      requires Shape()
      modifies state
      ensures VarsOf(state[..]) == Compress(old(VarsOf(state[..])), data)
    {
      hide Steps, Plus, LittleEndian, WordsOf;
      var v := AllOperations(Vars(state[0], state[1], state[2], state[3]), WordsOf(data));
      state[0] := Plus(state[0], v.a);
      state[1] := Plus(state[1], v.b);
      state[2] := Plus(state[2], v.c);
      state[3] := Plus(state[3], v.d);
    }

    static lemma NoSteps(v0: Vars, x: seq<Word>)
      requires |x| == 16
      ensures Steps(v0, x, 0) == v0
    {}

    /** memcpy(buffer + left, x, |x|) */
    method Store(left: nat, x: seq<bv8>)
      requires Shape() && left + |x| <= 64
      modifies buffer
      ensures buffer[..left + |x|] == old(buffer[..left]) + x
    {
      for i := 0 to |x|
        invariant buffer[..left] == old(buffer[..left])
        invariant forall j: nat :: j < i ==> buffer[left + j] == x[j]
      {
        buffer[left + i] := x[i];
      }
      assert buffer[left..left + |x|] == x;
      assert buffer[..left + |x|] == buffer[..left] + buffer[left..left + |x|];
    }

    /** The while loop of utils_md5_update: whole blocks straight from the input. */
    method ProcessBlocks(input: seq<bv8>, from: nat, ghost m: seq<bv8>) returns (pos: nat)
      requires Shape() && from <= |input| && Absorbed(Compress, INITIAL, m, VarsOf(state[..]), [])
      modifies state
      ensures from <= pos <= |input| < pos + 64
      ensures Absorbed(Compress, INITIAL, m + input[from..pos], VarsOf(state[..]), [])
    {
      hide Compress, Absorbed, VarsOf;
      pos := from;
      assert m + input[from..from] == m;
      while |input| - pos >= 64
        invariant from <= pos <= |input|
        invariant Absorbed(Compress, INITIAL, m + input[from..pos], VarsOf(state[..]), [])
      {
        var block := input[pos..pos + 64];
        AbsorbBlock(Compress, INITIAL, m + input[from..pos], VarsOf(state[..]), [], block);
        assert [] + block == block;
        assert m + input[from..pos] + block == m + input[from..pos + 64];
        Process(block);
        pos := pos + 64;
      }
    }

    /** utils_md5_update. The parameter is a size_t, but only its low 32 bits are added to the
        counter: a right counter stays right exactly when the size fits them. */
    method Update(input: seq<bv8>)
      requires Valid() && |input| < TWO_64
      modifies this, state, buffer
      ensures Valid() && msg == old(msg) + input
      ensures Total() == (old(Total()) + |input| % TWO_32) % TWO_64
      ensures old(Counted()) ==> (Counted() <==> |input| < TWO_32)
    {
      hide Absorbed, Compress, VarsOf;
      if |input| == 0 {
        assert msg + input == msg;
        assert Total() < TWO_64;
        return;
      }
      ghost var n := |msg|;
      var left := total0 % 64;
      LowSixBits(n);
      CountBytes(|input|, n);
      Absorb(input, left);
      msg := msg + input;
    }

    /** The two counter words after ilen more bytes. */
    method CountBytes(ilen: nat, ghost n: nat)
      requires total0 == n % TWO_32 && total1 < TWO_32 && ilen < TWO_64
      modifies this`total0, this`total1
      ensures total0 == (n + ilen) % TWO_32 && total1 < TWO_32
      ensures Total() == (old(Total()) + ilen % TWO_32) % TWO_64
      ensures old(Total()) == n % TWO_64 ==> (Total() == (n + ilen) % TWO_64 <==> ilen < TWO_32)
    {
      hide Add32;
      total0 := Add32(total0, ilen % TWO_32);
      if total0 < ilen % TWO_32 {
        total1 := Add32(total1, 1);
      }
      CounterTotal(old(total0), old(total1), ilen % TWO_32, total0, total1);
      CounterAfter(n, ilen, old(total0), old(total1), total0, total1);
    }

    static lemma LowSixBits(n: nat)
      ensures n % TWO_32 % 64 == n % 64
    {}

    /** The low 64 bits of a number whose low word is u and whose rest is r. */
    static lemma LowWords(x: nat, u: nat, r: nat)
      requires x == u + TWO_32 * r && u < TWO_32
      ensures x % TWO_32 == u && x % TWO_64 == u + TWO_32 * (r % TWO_32)
    {
      assert r == r / TWO_32 * TWO_32 + r % TWO_32;
      assert x == r / TWO_32 * TWO_64 + (u + TWO_32 * (r % TWO_32));
    }

    /** The carry into the high word. */
    static lemma Carry(t0: nat, t1: nat, k: nat, u0: nat, u1: nat) returns (c: nat)
      requires t0 < TWO_32 && t1 < TWO_32 && k < TWO_32
      requires u0 == Add32(t0, k) && u1 == if u0 < k then Add32(t1, 1) else t1
      ensures c <= 1 && u0 + TWO_32 * c == t0 + k && u0 < TWO_32 && u1 == (t1 + c) % TWO_32
    {
      c := if u0 < k then 1 else 0;
    }

    /** The counter after k more bytes. */
    static lemma CounterTotal(t0: nat, t1: nat, k: nat, u0: nat, u1: nat)
      requires t0 < TWO_32 && t1 < TWO_32 && k < TWO_32
      requires u0 == Add32(t0, k) && u1 == if u0 < k then Add32(t1, 1) else t1
      ensures u0 + TWO_32 * u1 == (t0 + TWO_32 * t1 + k) % TWO_64
    {
      hide Add32;
      var c := Carry(t0, t1, k, u0, u1);
      LowWords(t0 + TWO_32 * t1 + k, u0, t1 + c);
    }

    /** The counter after an update of k bytes, of which it counts the low 32 bits. */
    static lemma CounterAfter(n: nat, k: nat, t0: nat, t1: nat, u0: nat, u1: nat)
      requires t0 == n % TWO_32 && t1 < TWO_32 && k < TWO_64
      requires u0 == Add32(t0, k % TWO_32) && u1 == if u0 < k % TWO_32 then Add32(t1, 1) else t1
      ensures u0 == (n + k) % TWO_32
      ensures t0 + TWO_32 * t1 == n % TWO_64 ==> (u0 + TWO_32 * u1 == (n + k) % TWO_64 <==> k < TWO_32)
    {
      hide Add32;
      var c := Carry(t0, t1, k % TWO_32, u0, u1);
      var h, kh := n / TWO_32, k / TWO_32;
      assert n == t0 + TWO_32 * h && k == k % TWO_32 + TWO_32 * kh;
      LowWords(n, t0, h);
      LowWords(n + k, u0, h + kh + c);
      HighWords(h, kh, c);
    }

    static lemma HighWords(h: nat, kh: nat, c: nat)
      requires kh < TWO_32 && c <= 1
      ensures (h % TWO_32 + c) % TWO_32 == (h + kh + c) % TWO_32 <==> kh == 0
    {}

    /** The branch that completes the buffered block. */
    method FillAndProcess(x: seq<bv8>, left: nat)
      requires Shape() && left + |x| == 64 && Absorbed(Compress, INITIAL, msg, VarsOf(state[..]), buffer[..left])
      modifies state, buffer
      ensures Absorbed(Compress, INITIAL, msg + x, VarsOf(state[..]), [])
    {
      hide Absorbed, Compress, VarsOf;
      AbsorbBlock(Compress, INITIAL, msg, VarsOf(state[..]), buffer[..left], x);
      Store(left, x);
      assert buffer[..] == buffer[..64];
      Process(buffer[..]);
    }

    /** The rest of utils_md5_update: fill the buffer, whole blocks, keep the rest. */
    method Absorb(input: seq<bv8>, left: nat)
      requires Shape() && left == |msg| % 64 && |input| > 0
      requires Absorbed(Compress, INITIAL, msg, VarsOf(state[..]), buffer[..left])
      modifies state, buffer
      ensures Absorbed(Compress, INITIAL, msg + input, VarsOf(state[..]), buffer[..|msg + input| % 64])
    {
      hide Absorbed, Compress, VarsOf, INITIAL;
      if left != 0 && |input| >= 64 - left {
        FillAndGoOn(input, left);
      } else if left == 0 {
        assert buffer[..0] == [] && input[0..] == input;
        BlocksAndRest(input, 0, msg);
      } else {
        OnlyBuffer(input, left);
      }
    }

    /** The input completes the buffered block. */
    method FillAndGoOn(input: seq<bv8>, left: nat)
      requires Shape() && 0 < left < 64 && |input| >= 64 - left
      requires Absorbed(Compress, INITIAL, msg, VarsOf(state[..]), buffer[..left])
      modifies state, buffer
      ensures Absorbed(Compress, INITIAL, msg + input, VarsOf(state[..]), buffer[..|msg + input| % 64])
    {
      hide Absorbed, Compress, VarsOf, INITIAL;
      var fill := 64 - left;
      FillAndProcess(input[..fill], left);
      BlocksAndRest(input, fill, msg + input[..fill]);
      assert msg + input[..fill] + input[fill..] == msg + input;
    }

    /** The input stays in the buffer. */
    method OnlyBuffer(input: seq<bv8>, left: nat)
      requires Shape() && left == |msg| % 64 && left + |input| < 64
      requires Absorbed(Compress, INITIAL, msg, VarsOf(state[..]), buffer[..left])
      modifies buffer
      ensures Absorbed(Compress, INITIAL, msg + input, VarsOf(state[..]), buffer[..|msg + input| % 64])
    {
      hide Absorbed, Compress, VarsOf, INITIAL;
      AbsorbPart(Compress, INITIAL, msg, VarsOf(state[..]), buffer[..left], input);
      Store(left, input);
      assert |msg + input| % 64 == left + |input|;
    }

    /** The whole blocks from here on, and the rest into the buffer. */
    method BlocksAndRest(input: seq<bv8>, from: nat, ghost m: seq<bv8>)
      requires Shape() && from <= |input| && Absorbed(Compress, INITIAL, m, VarsOf(state[..]), [])
      modifies state, buffer
      ensures Absorbed(Compress, INITIAL, m + input[from..], VarsOf(state[..]), buffer[..|m + input[from..]| % 64])
    {
      hide Absorbed, Compress, VarsOf, INITIAL;
      var pos := ProcessBlocks(input, from, m);
      KeepRest(input, pos, m + input[from..pos]);
      assert m + input[from..pos] + input[pos..] == m + input[from..];
    }

    /** if (ilen > 0) memcpy(buffer, input, ilen) */
    method KeepRest(input: seq<bv8>, pos: nat, ghost m: seq<bv8>)
      requires Shape() && pos <= |input| < pos + 64
      requires Absorbed(Compress, INITIAL, m, VarsOf(state[..]), [])
      modifies buffer
      ensures Absorbed(Compress, INITIAL, m + input[pos..], VarsOf(state[..]), buffer[..|m + input[pos..]| % 64])
    {
      hide Absorbed, Compress, VarsOf, INITIAL;
      RestAbsorbed(m, input[pos..], VarsOf(state[..]));
      assert buffer[..0] == [];
      Store(0, input[pos..]);
      assert [] + input[pos..] == input[pos..];
    }

    static lemma RestAbsorbed(m: seq<bv8>, rest: seq<bv8>, v: Vars)
      requires Absorbed(Compress, INITIAL, m, v, []) && |rest| < 64
      ensures Absorbed(Compress, INITIAL, m + rest, v, rest) && |m + rest| % 64 == |rest|
    {
      hide Absorbed, Compress, INITIAL;
      AbsorbedTail(Compress, INITIAL, m, v, []);
      AbsorbPart(Compress, INITIAL, m, v, [], rest);
      assert [] + rest == rest;
    }

    /** The two words of the bit length, as utils_md5_finish shifts them out of the byte counter. */
    static function LowBits(t0: nat): nat {
      8 * t0 % TWO_32
    }

    static function HighBits(t0: nat, t1: nat): nat {
      (t0 / 0x2000_0000 + 8 * t1) % TWO_32
    }

    static lemma BitLength(t0: nat, t1: nat)
      requires t0 < TWO_32 && t1 < TWO_32
      ensures Length32(LowBits(t0)) + Length32(HighBits(t0, t1)) == Length64(8 * (t0 + TWO_32 * t1) % TWO_64)
    {
      hide Length32;
      var r := t0 / 0x2000_0000 + 8 * t1;
      assert 8 * (t0 + TWO_32 * t1) == LowBits(t0) + TWO_32 * r;
      LowWords(8 * (t0 + TWO_32 * t1), LowBits(t0), r);
      var x := 8 * (t0 + TWO_32 * t1) % TWO_64;
      assert x == LowBits(t0) + TWO_32 * HighBits(t0, t1);
      LowWords(x, LowBits(t0), HighBits(t0, t1));
    }

    static lemma PaddingIs(n: nat, padn: nat, total: nat)
      requires padn == if n % 64 < 56 then 56 - n % 64 else 120 - n % 64
      ensures PaddingTable()[..padn] + Length64(8 * total % TWO_64) == PaddingWith(n, total)
    {
      hide Length64;
      assert PaddingTable()[..padn] == [0x80] + Zeros(ZeroBytes(n));
    }

    /** utils_md5_finish: the two updates with the padding and the length end on a block boundary, and
        the digest is that of the message with the length the counter says. */
    method Finish(output: array<bv8>)
      requires Valid() && output.Length == 16 && output != buffer
      modifies this, state, buffer, output
      ensures |msg| % 64 == 0
      ensures output[..] == Md5With(old(msg), old(Total()))
    {
      hide Absorbed, Compress, VarsOf, Length32, Length64, LowBits, HighBits, PaddingWith, PaddingTable, OutputBytes;
      ghost var m, n := msg, |msg|;
      var high := HighBits(total0, total1);
      var low := LowBits(total0);
      var msglen := Length32(low) + Length32(high);
      var last := total0 % 64;
      LowSixBits(n);
      var padn := if last < 56 then 56 - last else 120 - last;
      ghost var total := Total();
      BitLength(total0, total1);
      PaddingIs(n, padn, total);
      Update(PaddingTable()[..padn]);
      Update(msglen);
      assert msg == m + PaddingWith(n, total);
      assert buffer[..0] == [];
      AbsorbedAll(Compress, INITIAL, msg, VarsOf(state[..]));
      StoreDigest(output);
    }

    /** The four IOT_MD5_PUT_UINT32_LE of the output. */
    method StoreDigest(output: array<bv8>)
      requires Shape() && output.Length == 16 && output != buffer
      modifies output
      ensures output[..] == Digest(VarsOf(state[..]))
    {
      hide OutputBytes;
      var b := OutputBytes(state[0]) + OutputBytes(state[1]) + OutputBytes(state[2]) + OutputBytes(state[3]);
      for i := 0 to 16
        invariant forall k: nat :: k < i ==> output[k] == b[k]
      {
        output[i] := b[i];
      }
      assert output[..] == b;
    }
  }

  /** A right counter gives the digest of RFC 1321. */
  lemma Md5OfCounted(m: seq<bv8>, total: nat)
    requires total % TWO_61 == |m| % TWO_61
    ensures Md5With(m, total) == Md5(m)
  {
    hide Digest, Compress, Padding, PaddingWith;
    PaddingExactly(|m|, total);
  }

  /** utils_md5: the digest of the input with the low 32 bits of its size for a length. */
  method Md5Call(input: seq<bv8>, output: array<bv8>)
    requires |input| < TWO_64 && output.Length == 16
    modifies output
    ensures output[..] == Md5With(input, |input| % TWO_32)
  {
    hide Md5With, Md5Context.Valid;
    var ctx := new Md5Context();
    ctx.Update(input);
    assert [] + input == input;
    ctx.Finish(output);
  }

  /** The padding of utils_md5, and with it the digest, is that of RFC 1321 if and only if the size
      modulo 2^61 fits 32 bits. */
  lemma Md5CallIsMd5(input: seq<bv8>)
    ensures PaddingWith(|input|, |input| % TWO_32) == Padding(|input|) <==> |input| % TWO_61 < TWO_32
    ensures |input| % TWO_61 < TWO_32 ==> Md5With(input, |input| % TWO_32) == Md5(input)
  {
    hide Md5With, Md5, Padding, PaddingWith;
    var n := |input|;
    PaddingExactly(n, n % TWO_32);
    assert n % TWO_61 % TWO_32 == n % TWO_32 by { ModOfMod(n, TWO_32, 0x2000_0000); }
    if n % TWO_61 < TWO_32 {
      Md5OfCounted(input, n % TWO_32);
    }
  }

  /** What the counter adds up over a sequence of updates. */
  function CountOf(chunks: seq<seq<bv8>>): nat {
    if chunks == [] then 0 else CountOf(chunks[..|chunks| - 1]) + |chunks[|chunks| - 1]| % TWO_32
  }

  lemma OneMoreChunk(chunks: seq<seq<bv8>>, i: nat)
    requires i < |chunks|
    ensures Concat(chunks[..i + 1]) == Concat(chunks[..i]) + chunks[i]
    ensures CountOf(chunks[..i + 1]) % TWO_64 == (CountOf(chunks[..i]) % TWO_64 + |chunks[i]| % TWO_32) % TWO_64
  {
    assert chunks[..i + 1][..i] == chunks[..i];
  }

  lemma NoChunks(chunks: seq<seq<bv8>>)
    ensures Concat(chunks[..0]) == [] && CountOf(chunks[..0]) == 0 && chunks[..|chunks|] == chunks
  {}

  /** Any sequence of updates hashes the concatenation, with the length the updates add up to. */
  method HashChunks(chunks: seq<seq<bv8>>, output: array<bv8>)
    requires forall i :: 0 <= i < |chunks| ==> |chunks[i]| < TWO_64
    requires output.Length == 16
    modifies output
    ensures output[..] == Md5With(Concat(chunks), CountOf(chunks) % TWO_64)
  {
    hide Md5With, Concat, CountOf, Md5Context.Valid, Md5Context.Counted;
    var ctx := new Md5Context();
    NoChunks(chunks);
    for i := 0 to |chunks|
      invariant ctx.Valid() && ctx.Total() == CountOf(chunks[..i]) % TWO_64 && ctx.msg == Concat(chunks[..i])
      invariant fresh(ctx) && fresh(ctx.state) && fresh(ctx.buffer)
    {
      OneMoreChunk(chunks, i);
      ctx.Update(chunks[i]);
    }
    ctx.Finish(output);
  }

  lemma {:induction false} CountOfSmall(chunks: seq<seq<bv8>>)
    requires forall i :: 0 <= i < |chunks| ==> |chunks[i]| < TWO_32
    ensures CountOf(chunks) == |Concat(chunks)|
  {
    if chunks != [] {
      CountOfSmall(chunks[..|chunks| - 1]);
    }
  }

  lemma LowOfLow(n: nat)
    ensures n % TWO_64 % TWO_61 == n % TWO_61
  {
    ModOfMod(n, TWO_61, 8);
  }

  /** When every update is under 2^32 bytes that is MD5 of the concatenation. */
  lemma HashChunksIsMd5(chunks: seq<seq<bv8>>)
    requires forall i :: 0 <= i < |chunks| ==> |chunks[i]| < TWO_32
    ensures Md5With(Concat(chunks), CountOf(chunks) % TWO_64) == Md5(Concat(chunks))
  {
    hide Md5With, Md5, Concat, CountOf;
    CountOfSmall(chunks);
    var n := |Concat(chunks)|;
    LowOfLow(n);
    Md5OfCounted(Concat(chunks), n % TWO_64);
  }

  // ---------- utils_md5_str ----------

  /** utils_hb2hex: the low four bits as a lower-case hexadecimal digit. */
  function Hb2Hex(hb: bv8): char {
    var h := hb & 0xF;
    if h < 10 then '0' + h as char else (h - 10) as char + 'a'
  }

  function HexValue(c: char): Option<bv8> {
    if '0' <= c <= '9' then Some((c - '0') as bv8)
    else if 'a' <= c <= 'f' then Some((c - 'a') as bv8 + 10)
    else None
  }

  /** Two digits per byte, high half first. */
  function HexString(b: seq<bv8>): string {
    if b == [] then "" else [Hb2Hex(b[0] >> 4), Hb2Hex(b[0])] + HexString(b[1..])
  }

  /** Reading hexadecimal digits back. */
  function ParseHex(s: string): Option<seq<bv8>> {
    if s == "" then Some([])
    else if |s| == 1 then None
    else
      match (HexValue(s[0]), HexValue(s[1]), ParseHex(s[2..]))
      case (Some(h), Some(l), Some(rest)) => Some([h * 16 + l] + rest)
      case _ => None
  }

  lemma HexDigit(b: bv8)
    ensures HexValue(Hb2Hex(b)) == Some(b & 0xF)
  {
    var h := b & 0xF;
    assert h == 0 || h == 1 || h == 2 || h == 3 || h == 4 || h == 5 || h == 6 || h == 7
        || h == 8 || h == 9 || h == 10 || h == 11 || h == 12 || h == 13 || h == 14 || h == 15;
  }

  lemma Halves(b: bv8)
    ensures ((b >> 4) & 0xF) * 16 + (b & 0xF) == b
  {}

  /** The printed digest determines the digest. */
  lemma {:induction false} HexRoundTrip(b: seq<bv8>)
    ensures ParseHex(HexString(b)) == Some(b)
  {
    hide Hb2Hex, HexValue;
    if b != [] {
      HexRoundTrip(b[1..]);
      HexDigit(b[0] >> 4);
      HexDigit(b[0]);
      Halves(b[0]);
      var s := HexString(b);
      assert s[2..] == HexString(b[1..]);
      assert b == [b[0]] + b[1..];
    }
  }

  /** The digits are those of RFC 1321's examples, lower case. */
  lemma HexDigits()
    ensures HexString([0x01, 0x23, 0x45, 0x67]) == "01234567"
    ensures HexString([0x89, 0xab, 0xcd, 0xef]) == "89abcdef"
  {
    hide Hb2Hex;
    LowDigits();
    HighDigits();
    NoHex();
    HexOfFour(0x01, 0x23, 0x45, 0x67);
    HexOfFour(0x89, 0xab, 0xcd, 0xef);
  }

  lemma LowDigits()
    ensures Hb2Hex(0x01 >> 4) == '0' && Hb2Hex(0x01) == '1' && Hb2Hex(0x23 >> 4) == '2' && Hb2Hex(0x23) == '3'
    ensures Hb2Hex(0x45 >> 4) == '4' && Hb2Hex(0x45) == '5' && Hb2Hex(0x67 >> 4) == '6' && Hb2Hex(0x67) == '7'
  {}

  lemma HighDigits()
    ensures Hb2Hex(0x89 >> 4) == '8' && Hb2Hex(0x89) == '9' && Hb2Hex(0xab >> 4) == 'a' && Hb2Hex(0xab) == 'b'
    ensures Hb2Hex(0xcd >> 4) == 'c' && Hb2Hex(0xcd) == 'd' && Hb2Hex(0xef >> 4) == 'e' && Hb2Hex(0xef) == 'f'
  {}

  lemma HexOfFour(a: bv8, b: bv8, c: bv8, d: bv8)
    ensures HexString([a, b, c, d]) == [Hb2Hex(a >> 4), Hb2Hex(a), Hb2Hex(b >> 4), Hb2Hex(b),
                                        Hb2Hex(c >> 4), Hb2Hex(c), Hb2Hex(d >> 4), Hb2Hex(d)]
  {
    hide Hb2Hex, HexString;
    NoHex();
    HexStringSnoc([], a);
    HexStringSnoc([a], b);
    HexStringSnoc([a, b], c);
    HexStringSnoc([a, b, c], d);
    assert [] + [a] == [a] && [a] + [b] == [a, b] && [a, b] + [c] == [a, b, c] && [a, b, c] + [d] == [a, b, c, d];
  }

  /** utils_md5_str: 32 hexadecimal digits and a NUL. */
  method Md5Str(input: seq<bv8>, output: array<char>)
    requires |input| < TWO_64 && output.Length >= 33
    modifies output
    ensures output[..33] == HexString(Md5With(input, |input| % TWO_32)) + ['\0']
  {
    hide Md5With, Hb2Hex, HexString;
    var bufOut := new bv8[16];
    Md5Call(input, bufOut);
    ghost var d := bufOut[..];
    assert d[..0] == [] && HexString([]) == "" by { NoHex(); }
    for i := 0 to 16
      invariant bufOut[..] == d
      invariant output[..2 * i] == HexString(d[..i])
    {
      output[2 * i] := Hb2Hex(bufOut[i] >> 4);
      output[2 * i + 1] := Hb2Hex(bufOut[i]);
      HexStringSnoc(d[..i], d[i]);
      assert d[..i + 1] == d[..i] + [d[i]];
      assert output[..2 * i + 2] == output[..2 * i] + [Hb2Hex(d[i] >> 4), Hb2Hex(d[i])];
    }
    assert d[..16] == d;
    output[32] := '\0';
  }

  lemma NoHex()
    ensures HexString([]) == ""
  {}

  lemma {:induction false} HexStringSnoc(b: seq<bv8>, x: bv8)
    ensures HexString(b + [x]) == HexString(b) + [Hb2Hex(x >> 4), Hb2Hex(x)]
  {
    hide Hb2Hex;
    if b == [] {
      assert b + [x] == [x];
    } else {
      assert (b + [x])[1..] == b[1..] + [x];
      HexStringSnoc(b[1..], x);
    }
  }
}
