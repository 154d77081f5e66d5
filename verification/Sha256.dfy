/** The streaming SHA-256 of sdk-c/src/nff_sha256_fallback.h, against the one-shot
    definition of FIPS 180-4. */
module Sha256 {
  import opened Bytes

  type word = bv32

  // ---------------------------------------------------------------------
  // FIPS 180-4, section 4.1.2: functions; section 4.2.2: constants
  // ---------------------------------------------------------------------

  function Rotr(x: word, n: bv32): word
    requires 0 < n < 32
  {
    (x >> n) | (x << (32 - n))
  }

  /** Addition modulo 2^32 (section 3.2). */
  function Sum(x: word, y: word): word { x + y }

  function Ch(x: word, y: word, z: word): word { (x & y) ^ (!x & z) }

  function Maj(x: word, y: word, z: word): word { (x & y) ^ (x & z) ^ (y & z) }

  function BigSigma0(x: word): word { Rotr(x, 2) ^ Rotr(x, 13) ^ Rotr(x, 22) }

  function BigSigma1(x: word): word { Rotr(x, 6) ^ Rotr(x, 11) ^ Rotr(x, 25) }

  function SmallSigma0(x: word): word { Rotr(x, 7) ^ Rotr(x, 18) ^ (x >> 3) }

  function SmallSigma1(x: word): word { Rotr(x, 17) ^ Rotr(x, 19) ^ (x >> 10) }

  /** The round constants, sixteen to a row. */
  function ConstantsRow0(): seq<word> {
    [0x428a2f98, 0x71374491, 0xb5c0fbcf, 0xe9b5dba5, 0x3956c25b, 0x59f111f1, 0x923f82a4, 0xab1c5ed5,
     0xd807aa98, 0x12835b01, 0x243185be, 0x550c7dc3, 0x72be5d74, 0x80deb1fe, 0x9bdc06a7, 0xc19bf174]
  }

  function ConstantsRow1(): seq<word> {
    [0xe49b69c1, 0xefbe4786, 0x0fc19dc6, 0x240ca1cc, 0x2de92c6f, 0x4a7484aa, 0x5cb0a9dc, 0x76f988da,
     0x983e5152, 0xa831c66d, 0xb00327c8, 0xbf597fc7, 0xc6e00bf3, 0xd5a79147, 0x06ca6351, 0x14292967]
  }

  function ConstantsRow2(): seq<word> {
    [0x27b70a85, 0x2e1b2138, 0x4d2c6dfc, 0x53380d13, 0x650a7354, 0x766a0abb, 0x81c2c92e, 0x92722c85,
     0xa2bfe8a1, 0xa81a664b, 0xc24b8b70, 0xc76c51a3, 0xd192e819, 0xd6990624, 0xf40e3585, 0x106aa070]
  }

  function ConstantsRow3(): seq<word> {
    [0x19a4c116, 0x1e376c08, 0x2748774c, 0x34b0bcb5, 0x391c0cb3, 0x4ed8aa4a, 0x5b9cca4f, 0x682e6ff3,
     0x748f82ee, 0x78a5636f, 0x84c87814, 0x8cc70208, 0x90befffa, 0xa4506ceb, 0xbef9a3f7, 0xc67178f2]
  }

  function RoundConstant(t: nat): word
    requires t < 64
  {
    if t < 16 then ConstantsRow0()[t]
    else if t < 32 then ConstantsRow1()[t - 16]
    else if t < 48 then ConstantsRow2()[t - 32]
    else ConstantsRow3()[t - 48]
  }

  // ---------------------------------------------------------------------
  // FIPS 180-4, sections 5.1.1, 5.2.1, 5.3.3 and 6.2.2
  // ---------------------------------------------------------------------

  function AsWord(b: byte): word { b as word }

  function BigEndian(b0: byte, b1: byte, b2: byte, b3: byte): word {
    (AsWord(b0) << 24) | (AsWord(b1) << 16) | (AsWord(b2) << 8) | AsWord(b3)
  }

  type Block = b: seq<byte> | |b| == 64 witness seq(64, _ => 0)

  type Hash = h: seq<word> | |h| == 8 witness seq(8, _ => 0)

  /** Section 5.3.3. */
  function InitialHash(): (h: Hash) {
    [0x6a09e667, 0xbb67ae85, 0x3c6ef372, 0xa54ff53a, 0x510e527f, 0x9b05688c, 0x1f83d9ab, 0x5be0cd19]
  }

  /** Word `t` of the message schedule. */
  function Schedule(block: Block, t: nat): word {
    if t < 16 then BigEndian(block[4 * t], block[4 * t + 1], block[4 * t + 2], block[4 * t + 3])
    else
      Sum(Sum(Sum(SmallSigma1(Schedule(block, t - 2)), Schedule(block, t - 7)),
              SmallSigma0(Schedule(block, t - 15))), Schedule(block, t - 16))
  }

  datatype Working = Working(a: word, b: word, c: word, d: word, e: word, f: word, g: word, h: word)

  function Start(h: Hash): Working {
    Working(h[0], h[1], h[2], h[3], h[4], h[5], h[6], h[7])
  }

  function Round(v: Working, k: word, w: word): Working {
    var t1 := Sum(Sum(Sum(Sum(v.h, BigSigma1(v.e)), Ch(v.e, v.f, v.g)), k), w);
    var t2 := Sum(BigSigma0(v.a), Maj(v.a, v.b, v.c));
    Working(Sum(t1, t2), v.a, v.b, v.c, Sum(v.d, t1), v.e, v.f, v.g)
  }

  /** The working variables after the first `t` rounds. */
  function Rounds(h: Hash, block: Block, t: nat): Working
    requires t <= 64
  {
    if t == 0 then Start(h) else Round(Rounds(h, block, t - 1), RoundConstant(t - 1), Schedule(block, t - 1))
  }

  function Added(h: Hash, v: Working): Hash {
    [Sum(h[0], v.a), Sum(h[1], v.b), Sum(h[2], v.c), Sum(h[3], v.d),
     Sum(h[4], v.e), Sum(h[5], v.f), Sum(h[6], v.g), Sum(h[7], v.h)]
  }

  lemma EightWords(a: array<word>)
    requires a.Length == 8
    ensures a[..] == [a[0], a[1], a[2], a[3], a[4], a[5], a[6], a[7]]
  {
  }

  lemma AddedListed(h: Hash, v: Working)
    ensures Added(h, v) == [Sum(h[0], v.a), Sum(h[1], v.b), Sum(h[2], v.c), Sum(h[3], v.d),
                            Sum(h[4], v.e), Sum(h[5], v.f), Sum(h[6], v.g), Sum(h[7], v.h)]
  {
    hide Sum;
  }

  function Compress(h: Hash, block: Block): Hash {
    Added(h, Rounds(h, block, 64))
  }

  /** The hash value after all blocks of `m`. */
  function HashBlocks(m: seq<byte>): Hash
    requires |m| % 64 == 0
  {
    if m == [] then InitialHash()
    else Compress(HashBlocks(m[..|m| - 64]), m[|m| - 64..])
  }

  function Zeros(n: nat): (z: seq<byte>)
    ensures |z| == n
  {
    seq(n, _ => 0)
  }

  /** The least count of zero bytes that brings length + 1 + zeros to 56 modulo 64. */
  function ZeroCount(n: nat): (z: nat)
    ensures (n + 1 + z) % 64 == 56 && z < 64
  {
    (119 - n % 64) % 64
  }

  function LowByte(n: nat): byte {
    n % 256
  }

  /** `n` as `len` bytes, most significant first. */
  function BigEndianBytes(n: nat, len: nat): (b: seq<byte>)
    ensures |b| == len
  {
    if len == 0 then [] else BigEndianBytes(n / 256, len - 1) + [LowByte(n)]
  }

  function LengthField(bits: nat): (b: seq<byte>)
    ensures |b| == 8
  {
    BigEndianBytes(bits, 8)
  }

  const TWO64 := 0x1_0000_0000_0000_0000

  /** The padded message: a one bit, zeros, and the message length in bits. The standard
      covers lengths below 2^64 bits; beyond them the length is taken modulo 2^64. */
  function Padded(m: seq<byte>): (p: seq<byte>)
    ensures |p| % 64 == 0
  {
    hide LengthField, Zeros, ZeroCount;
    var z := ZeroCount(|m|);
    assert (|m| + 1 + z + 8) % 64 == 0;
    var p := m + [0x80] + Zeros(z) + LengthField((8 * |m|) % TWO64);
    assert |p| == |m| + 1 + z + 8;
    p
  }

  /** The byte of `w` that starts `shift` bits above the bottom. */
  function ByteAt(w: word, shift: bv32): byte
    requires shift <= 24
  {
    ((w >> shift) & 0xff) as int
  }

  /** Words, each most significant byte first. */
  function Output(ws: seq<word>): (out: seq<byte>)
    ensures |out| == 4 * |ws|
  {
    if ws == [] then []
    else
      var w := ws[|ws| - 1];
      Output(ws[..|ws| - 1]) + [ByteAt(w, 24), ByteAt(w, 16), ByteAt(w, 8), ByteAt(w, 0)]
  }

  function Digest(m: seq<byte>): (d: seq<byte>)
    ensures |d| == 32
  {
    Output(HashBlocks(Padded(m)))
  }

  // ---------------------------------------------------------------------
  // The streaming implementation
  // ---------------------------------------------------------------------

  /** The whole blocks of a message, and what is left over. */
  function WholeBlocks(m: seq<byte>): (p: seq<byte>)
    ensures |p| % 64 == 0
  {
    m[..|m| - |m| % 64]
  }

  function Tail(m: seq<byte>): (t: seq<byte>)
    ensures |t| == |m| % 64
  {
    m[|m| - |m| % 64..]
  }

  lemma HashAppend(p: seq<byte>, block: Block)
    requires |p| % 64 == 0
    ensures |p + block| % 64 == 0
    ensures HashBlocks(p + block) == Compress(HashBlocks(p), block)
  {
    var m := p + block;
    assert m[..|m| - 64] == p && m[|m| - 64..] == block;
  }

  /** The first loops of `nff_sha256_transform`: fills the schedule array. */
  method Expand(d: Block) returns (m: array<word>)
    ensures fresh(m) && m.Length == 64
    ensures forall t :: 0 <= t < 64 ==> m[t] == Schedule(d, t)
  {
    hide BigEndian, Sum, SmallSigma0, SmallSigma1;
    m := new word[64];
    for i := 0 to 16
      invariant forall t :: 0 <= t < i ==> m[t] == Schedule(d, t)
    {
      var j := 4 * i;
      m[i] := BigEndian(d[j], d[j + 1], d[j + 2], d[j + 3]);
    }
    for i := 16 to 64
      invariant forall t :: 0 <= t < i ==> m[t] == Schedule(d, t)
    {
      m[i] := Sum(Sum(Sum(SmallSigma1(m[i - 2]), m[i - 7]), SmallSigma0(m[i - 15])), m[i - 16]);
    }
  }

  /** The round loop over the eight working variables. */
  method RunRounds(ghost d: Block, s: Hash, m: array<word>) returns (v: Working)
    requires m.Length == 64 && forall t :: 0 <= t < 64 ==> m[t] == Schedule(d, t)
    ensures v == Rounds(s, d, 64)
  {
    hide Schedule, RoundConstant, Sum, Ch, Maj, BigSigma0, BigSigma1;
    var a, b, c, dd := s[0], s[1], s[2], s[3];
    var e, f, g, h := s[4], s[5], s[6], s[7];
    for i := 0 to 64
      invariant Working(a, b, c, dd, e, f, g, h) == Rounds(s, d, i)
    {
      var t1 := Sum(Sum(Sum(Sum(h, BigSigma1(e)), Ch(e, f, g)), RoundConstant(i)), m[i]);
      var t2 := Sum(BigSigma0(a), Maj(a, b, c));
      h, g, f, e := g, f, e, Sum(dd, t1);
      dd, c, b, a := c, b, a, Sum(t1, t2);
    }
    v := Working(a, b, c, dd, e, f, g, h);
  }

  class Context {
    const state: array<word>
    var count: nat
    const buf: array<byte>
    /** Everything fed so far. */
    ghost var msg: seq<byte>

    ghost predicate Shape()
    {
      state.Length == 8 && buf.Length == 64
    }

    ghost predicate Valid()
      reads this, state, buf
    {
      && Shape()
      && count == |msg| % TWO64
      && state[..] == HashBlocks(WholeBlocks(msg))
      && buf[..|msg| % 64] == Tail(msg)
    }

    constructor ()
      ensures Valid() && msg == []
      ensures fresh(state) && fresh(buf)
    {
      state := new word[8](i requires 0 <= i < 8 => InitialHash()[i]);
      count := 0;
      buf := new byte[64];
      msg := [];
      new;
      assert state[..] == InitialHash();
    }

    method Transform(d: seq<byte>)
      requires Shape() && |d| == 64
      modifies state
      ensures state[..] == Compress(old(state[..]), d)
    {
      hide Schedule, Rounds, Added;
      var m := Expand(d);
      var v := RunRounds(d, state[..], m);
      AddIn(v);
    }

    /** The eight sums that end the compression. */
    method AddIn(v: Working)
      requires Shape()
      modifies state
      ensures state[..] == Added(old(state[..]), v)
    {
      hide Sum, Added;
      AddedListed(state[..], v);
      state[0], state[1] := Sum(state[0], v.a), Sum(state[1], v.b);
      state[2], state[3] := Sum(state[2], v.c), Sum(state[3], v.d);
      state[4], state[5] := Sum(state[4], v.e), Sum(state[5], v.f);
      state[6], state[7] := Sum(state[6], v.g), Sum(state[7], v.h);
      EightWords(state);
    }

    /** Copies `src` into the buffer from position `at`. */
    method Fill(at: nat, src: seq<byte>)
      requires Shape() && at + |src| <= 64
      modifies buf
      ensures buf[..] == old(buf[..at]) + src + old(buf[at + |src|..])
    {
      for i := 0 to |src|
        invariant buf[..] == old(buf[..at]) + src[..i] + old(buf[at + i..])
      {
        buf[at + i] := src[i];
      }
      assert src[..|src|] == src;
    }

    /** The block loop: absorbs whole blocks of `data` from position `from`. */
    method Absorb(ghost before: seq<byte>, data: seq<byte>, from: nat) returns (pos: nat)
      requires Shape() && from <= |data| && (|before| + from) % 64 == 0
      requires state[..] == HashBlocks(before + data[..from])
      modifies state
      ensures pos <= |data| < pos + 64 && (|before| + pos) % 64 == 0
      ensures state[..] == HashBlocks(before + data[..pos])
    {
      hide Compress, HashBlocks;
      pos := from;
      while |data| - pos >= 64
        invariant pos <= |data| && (|before| + pos) % 64 == 0
        invariant state[..] == HashBlocks(before + data[..pos])
        decreases |data| - pos
      {
        HashAppend(before + data[..pos], data[pos..pos + 64]);
        assert before + data[..pos] + data[pos..pos + 64] == before + data[..pos + 64];
        Transform(data[pos..pos + 64]);
        pos := pos + 64;
      }
    }

    /** Completes a partly filled buffer with the first bytes of `data`. */
    method TopUp(data: seq<byte>, used: nat) returns (pos: nat)
      requires Valid() && 0 < used == |msg| % 64 && 64 - used <= |data|
      modifies state, buf
      ensures pos <= |data| && (|msg| + pos) % 64 == 0
      ensures state[..] == HashBlocks(msg + data[..pos])
    {
      hide Compress, HashBlocks, WholeBlocks, Tail;
      pos := 64 - used;
      ToppedUp(msg, data, pos);
      Fill(used, data[..pos]);
      assert buf[..] == Tail(msg) + data[..pos];
      HashAppend(WholeBlocks(msg), buf[..]);
      Transform(buf[..]);
    }

    /** Data that does not fill the buffer is only appended to it. */
    method KeepPartial(data: seq<byte>)
      requires Valid() && |msg| % 64 + |data| < 64
      modifies this, buf
      ensures Valid() && msg == old(msg) + data
    {
      hide Compress, HashBlocks, WholeBlocks, Tail;
      WrappedCount(|msg|, |data|);
      StillPartial(msg, data);
      Fill(count % 64, data);
      count := (count + |data|) % TWO64;
      msg := msg + data;
    }

    method Update(data: seq<byte>)
      requires Valid()
      modifies this, state, buf
      ensures Valid() && msg == old(msg) + data
    {
      hide Compress, HashBlocks, WholeBlocks, Tail;
      ghost var before := msg;
      var used := count % 64;
      WrappedCount(|msg|, |data|);
      var pos := 0;
      if used != 0 && |data| < 64 - used {
        KeepPartial(data);
        return;
      }
      if used != 0 {
        pos := TopUp(data, used);
      } else {
        NothingPending(before, data);
      }
      pos := Absorb(before, data, pos);
      if pos < |data| {
        Fill(0, data[pos..]);
        assert buf[..|data| - pos] == data[pos..];
      }
      Consumed(before, data, pos);
      count := (count + |data|) % TWO64;
      msg := before + data;
    }

    /** Stores the bit length big-endian at the end of the buffer. */
    method StoreLength()
      requires Shape()
      modifies buf
      ensures buf[..] == old(buf[..56]) + LengthField((count * 8) % TWO64)
    {
      hide LowByte, LengthField;
      var bits := (count * 8) % TWO64;
      EightBytes(bits);
      buf[56] := LowByte(bits / 0x100_0000_0000_0000);
      buf[57] := LowByte(bits / 0x1_0000_0000_0000);
      buf[58] := LowByte(bits / 0x100_0000_0000);
      buf[59] := LowByte(bits / 0x1_0000_0000);
      buf[60] := LowByte(bits / 0x100_0000);
      buf[61] := LowByte(bits / 0x1_0000);
      buf[62] := LowByte(bits / 256);
      buf[63] := LowByte(bits);
    }

    /** Fills the buffer up with zeros, hashes it and starts the very last block. */
    method Spill(used: nat)
      requires Shape() && used <= 64
      modifies state, buf
      ensures state[..] == Compress(old(state[..]), old(buf[..used]) + Zeros(64 - used))
      ensures buf[..56] == Zeros(56)
    {
      hide Compress, Zeros;
      ghost var start := buf[..used];
      Fill(used, Zeros(64 - used));
      assert buf[..] == start + Zeros(64 - used);
      Transform(buf[..]);
      Fill(0, Zeros(56));
    }

    /** Pads: hashes the first of two last blocks if the length field does not fit, and
        leaves the very last block in the buffer. */
    method Pad() returns (ghost done: seq<byte>)
      requires Valid()
      modifies state, buf
      ensures |done| % 64 == 0 && Padded(msg) == done + buf[..]
      ensures state[..] == HashBlocks(done)
    {
      hide Compress, HashBlocks, LengthField, Padded, LowByte, WholeBlocks, Zeros;
      done := WholeBlocks(msg);
      WrappedCount(|msg|, 0);
      ghost var tail := Tail(msg);
      var used := count % 64;
      Fill(used, [0x80]);
      used := used + 1;
      assert buf[..used] == tail + [0x80];
      if used > 56 {
        TwoBlockPadding(msg);
        ghost var block := tail + [0x80] + Zeros(63 - |msg| % 64);
        Spill(used);
        HashAppend(done, block);
        done := done + block;
      } else {
        OneBlockPadding(msg);
        Fill(used, Zeros(56 - used));
        assert buf[..56] == tail + [0x80] + Zeros(55 - |msg| % 64);
      }
      LengthOfCount(|msg|);
      StoreLength();
    }

    /** Pads, hashes the last block and writes the digest. */
    method Finish(out: array<byte>)
      requires Valid() && out.Length == 32 && out != buf
      modifies state, buf, out
      ensures out[..] == Digest(msg)
    {
      hide Compress, HashBlocks, Padded, Output;
      ghost var done := Pad();
      HashAppend(done, buf[..]);
      Transform(buf[..]);
      Emit(out);
    }

    method Emit(out: array<byte>)
      requires Shape() && out.Length == 32
      modifies out
      ensures out[..] == Output(state[..])
    {
      hide ByteAt, Output;
      OutputStep([], 0);
      for i := 0 to 8
        invariant out[..4 * i] == Output(state[..i])
      {
        EmitWord(out, 4 * i, state[i]);
        OutputStep(state[..i], state[i]);
        assert state[..i + 1] == state[..i] + [state[i]];
        assert out[..4 * i + 4] == out[..4 * i] + out[4 * i..4 * i + 4];
      }
      assert state[..8] == state[..] && out[..32] == out[..];
    }
  }

  /** Four bytes from position `j`. */
  method EmitWord(out: array<byte>, j: nat, w: word)
    requires j + 4 <= out.Length
    modifies out
    ensures out[..j] == old(out[..j])
    ensures out[j..j + 4] == [ByteAt(w, 24), ByteAt(w, 16), ByteAt(w, 8), ByteAt(w, 0)]
  {
    hide ByteAt;
    out[j] := ByteAt(w, 24);
    out[j + 1] := ByteAt(w, 16);
    out[j + 2] := ByteAt(w, 8);
    out[j + 3] := ByteAt(w, 0);
  }

  lemma LowBits(w: word)
    ensures w & 0xff <= 0xff
  {
  }

  lemma SmallWord(v: word, b: byte)
    requires v <= 0xff && b == v as int
    ensures AsWord(b) == v
  {
  }

  lemma ByteOfWord(w: word, shift: bv32)
    requires shift <= 24
    ensures AsWord(ByteAt(w, shift)) == (w >> shift) & 0xff
  {
    hide AsWord;
    LowBits(w >> shift);
    SmallWord((w >> shift) & 0xff, ByteAt(w, shift));
  }

  lemma FourQuarters(w: word)
    ensures (((w >> 24) & 0xff) << 24) | (((w >> 16) & 0xff) << 16) | (((w >> 8) & 0xff) << 8) | ((w >> 0) & 0xff) == w
  {
  }

  /** The four bytes written for a word read back as that word. */
  lemma WordReadsBack(w: word)
    ensures BigEndian(ByteAt(w, 24), ByteAt(w, 16), ByteAt(w, 8), ByteAt(w, 0)) == w
  {
    hide ByteAt, AsWord;
    ByteOfWord(w, 24);
    ByteOfWord(w, 16);
    ByteOfWord(w, 8);
    ByteOfWord(w, 0);
    FourQuarters(w);
  }

  /** The first sixteen words of the schedule are those whose bytes the block lists. */
  lemma ScheduleReadsBlock(block: Block, t: nat, w: word)
    requires t < 16 && block[4 * t..4 * t + 4] == [ByteAt(w, 24), ByteAt(w, 16), ByteAt(w, 8), ByteAt(w, 0)]
    ensures Schedule(block, t) == w
  {
    hide ByteAt, BigEndian;
    WordReadsBack(w);
    var four := block[4 * t..4 * t + 4];
    assert four[0] == block[4 * t] && four[1] == block[4 * t + 1];
    assert four[2] == block[4 * t + 2] && four[3] == block[4 * t + 3];
  }

  /** Each bit of `Ch` is chosen by the first word. */
  lemma ChChooses(x: word, y: word, z: word)
    ensures Ch(x, y, z) & x == y & x && Ch(x, y, z) & !x == z & !x
  {
  }

  /** Two equal votes decide a bit of `Maj`. */
  lemma MajDecides(x: word, z: word)
    ensures Maj(x, x, z) == x && Maj(x, z, x) == x && Maj(z, x, x) == x
  {
  }

  lemma OutputStep(ws: seq<word>, w: word)
    ensures Output([]) == []
    ensures Output(ws + [w]) == Output(ws) + [ByteAt(w, 24), ByteAt(w, 16), ByteAt(w, 8), ByteAt(w, 0)]
  {
    hide ByteAt;
    assert (ws + [w])[..|ws|] == ws;
  }

  lemma NestedShifts(n: nat)
    ensures n / 256 / 256 == n / 0x1_0000
    ensures n / 0x1_0000 / 256 == n / 0x100_0000
    ensures n / 0x100_0000 / 256 == n / 0x1_0000_0000
    ensures n / 0x1_0000_0000 / 256 == n / 0x100_0000_0000
    ensures n / 0x100_0000_0000 / 256 == n / 0x1_0000_0000_0000
    ensures n / 0x1_0000_0000_0000 / 256 == n / 0x100_0000_0000_0000
  {
  }

  lemma EightBytes(n: nat)
    ensures LengthField(n) == [
              LowByte(n / 0x100_0000_0000_0000), LowByte(n / 0x1_0000_0000_0000),
              LowByte(n / 0x100_0000_0000), LowByte(n / 0x1_0000_0000), LowByte(n / 0x100_0000),
              LowByte(n / 0x1_0000), LowByte(n / 256), LowByte(n)]
  {
    hide LowByte;
    NestedShifts(n);
    var n1, n2, n3 := n / 256, n / 0x1_0000, n / 0x100_0000;
    var n4, n5, n6, n7 := n / 0x1_0000_0000, n / 0x100_0000_0000, n / 0x1_0000_0000_0000, n / 0x100_0000_0000_0000;
    assert BigEndianBytes(n7, 1) == [LowByte(n7)];
    assert BigEndianBytes(n6, 2) == BigEndianBytes(n7, 1) + [LowByte(n6)];
    assert BigEndianBytes(n5, 3) == BigEndianBytes(n6, 2) + [LowByte(n5)];
    assert BigEndianBytes(n4, 4) == BigEndianBytes(n5, 3) + [LowByte(n4)];
    assert BigEndianBytes(n3, 5) == BigEndianBytes(n4, 4) + [LowByte(n3)];
    assert BigEndianBytes(n2, 6) == BigEndianBytes(n3, 5) + [LowByte(n2)];
    assert BigEndianBytes(n1, 7) == BigEndianBytes(n2, 6) + [LowByte(n1)];
  }

  /** Below 2^61 bytes the length field is the length itself: the digest is the standard's. */
  lemma LengthFitsField(m: seq<byte>)
    requires |m| < 0x2000_0000_0000_0000
    ensures Padded(m) == m + [0x80] + Zeros(ZeroCount(|m|)) + LengthField(8 * |m|)
  {
    hide LengthField;
  }

  /** The length field read as a big-endian number is the bit length. */
  lemma {:induction false} BytesReadBack(n: nat, len: nat)
    requires n < Pow256(len)
    ensures Number256(BigEndianBytes(n, len)) == n
  {
    if len > 0 {
      BytesReadBack(n / 256, len - 1);
      var b := BigEndianBytes(n, len);
      assert b[..len - 1] == BigEndianBytes(n / 256, len - 1);
    }
  }

  lemma LengthOfCount(n: nat)
    ensures ((n % TWO64) * 8) % TWO64 == (8 * n) % TWO64
  {
    var q, r := n / TWO64, n % TWO64;
    assert 8 * n == 8 * r + (8 * q) * TWO64;
  }

  lemma WrappedCount(n: nat, k: nat)
    ensures (n % TWO64) % 64 == n % 64
    ensures (n % TWO64 + k) % TWO64 == (n + k) % TWO64
  {
    var q, r := n / TWO64, n % TWO64;
    Below64(0x400_0000_0000_0000 * q, r);
    Below2To64(q, r + k);
  }

  lemma Below64(q: nat, r: nat)
    ensures (64 * q + r) % 64 == r % 64
  {
  }

  lemma Below2To64(q: nat, r: nat)
    ensures (TWO64 * q + r) % TWO64 == r % TWO64
  {
  }

  lemma OneBlockPadding(m: seq<byte>)
    requires |m| % 64 <= 55
    ensures Padded(m) == WholeBlocks(m)
                + (Tail(m) + [0x80] + Zeros(55 - |m| % 64) + LengthField((8 * |m|) % TWO64))
  {
    hide LengthField;
    assert ZeroCount(|m|) == 55 - |m| % 64;
    assert m == WholeBlocks(m) + Tail(m);
  }

  lemma TwoBlockPadding(m: seq<byte>)
    requires |m| % 64 > 55
    ensures Padded(m) == WholeBlocks(m) + (Tail(m) + [0x80] + Zeros(63 - |m| % 64))
                + (Zeros(56) + LengthField((8 * |m|) % TWO64))
  {
    hide LengthField;
    assert ZeroCount(|m|) == 119 - |m| % 64;
    assert m == WholeBlocks(m) + Tail(m);
    assert Zeros(119 - |m| % 64) == Zeros(63 - |m| % 64) + Zeros(56);
  }

  lemma NothingPending(msg: seq<byte>, data: seq<byte>)
    requires |msg| % 64 == 0
    ensures msg + data[..0] == WholeBlocks(msg)
  {
  }

  lemma ToppedUp(msg: seq<byte>, data: seq<byte>, pos: nat)
    requires pos <= |data| && |msg| % 64 + pos == 64
    ensures (|msg| + pos) % 64 == 0
    ensures WholeBlocks(msg) + (Tail(msg) + data[..pos]) == msg + data[..pos]
  {
    assert msg == WholeBlocks(msg) + Tail(msg);
  }

  lemma StillPartial(before: seq<byte>, data: seq<byte>)
    requires |before| % 64 + |data| < 64
    ensures WholeBlocks(before + data) == WholeBlocks(before)
    ensures Tail(before + data) == Tail(before) + data
  {
    assert |before + data| % 64 == |before| % 64 + |data|;
  }

  lemma Consumed(before: seq<byte>, data: seq<byte>, pos: nat)
    requires pos <= |data| && (|before| + pos) % 64 == 0 && |data| - pos < 64
    ensures WholeBlocks(before + data) == before + data[..pos]
    ensures Tail(before + data) == data[pos..]
  {
    assert |before + data| % 64 == |data| - pos;
  }

  function Flatten(chunks: seq<seq<byte>>): seq<byte> {
    if chunks == [] then [] else Flatten(chunks[..|chunks| - 1]) + chunks[|chunks| - 1]
  }

  /** Every way of cutting a message into updates yields the one-shot digest. */
  method HashChunks(chunks: seq<seq<byte>>) returns (out: array<byte>)
    ensures out[..] == Digest(Flatten(chunks))
  {
    hide HashBlocks, Padded, Output, WholeBlocks, Tail, Digest;
    var ctx := new Context();
    for i := 0 to |chunks|
      invariant ctx.Valid() && ctx.msg == Flatten(chunks[..i])
      invariant fresh(ctx) && fresh(ctx.state) && fresh(ctx.buf)
    {
      assert chunks[..i + 1][..i] == chunks[..i];
      ctx.Update(chunks[i]);
    }
    assert chunks[..|chunks|] == chunks;
    out := new byte[32];
    ctx.Finish(out);
  }

  // ---------------------------------------------------------------------
  // Where the constants come from (FIPS 180-4, sections 4.2.2 and 5.3.3)
  // ---------------------------------------------------------------------

  function PrimesRow0(): seq<int> {
    [2, 3, 5, 7, 11, 13, 17, 19, 23, 29, 31, 37, 41, 43, 47, 53]
  }

  function PrimesRow1(): seq<int> {
    [59, 61, 67, 71, 73, 79, 83, 89, 97, 101, 103, 107, 109, 113, 127, 131]
  }

  function PrimesRow2(): seq<int> {
    [137, 139, 149, 151, 157, 163, 167, 173, 179, 181, 191, 193, 197, 199, 211, 223]
  }

  function PrimesRow3(): seq<int> {
    [227, 229, 233, 239, 241, 251, 257, 263, 269, 271, 277, 281, 283, 293, 307, 311]
  }

  function CubeFloor(p: int): int {
    if p < 8 then 1 else if p < 27 then 2 else if p < 64 then 3
    else if p < 125 then 4 else if p < 216 then 5 else 6
  }

  function SquareFloor(p: int): int {
    if p < 4 then 1 else if p < 9 then 2 else if p < 16 then 3 else 4
  }

  /** `k` is the first 32 fractional bits of the cube root of `p`. */
  predicate CubeRootBits(k: word, p: int) {
    var r := CubeFloor(p) * 0x1_0000_0000 + k as int;
    r * r * r <= p * 0x1_0000_0000_0000_0000_0000_0000 < (r + 1) * (r + 1) * (r + 1)
  }

  /** `k` is the first 32 fractional bits of the square root of `p`. */
  predicate SquareRootBits(k: word, p: int) {
    var r := SquareFloor(p) * 0x1_0000_0000 + k as int;
    r * r <= p * 0x1_0000_0000_0000_0000 < (r + 1) * (r + 1)
  }

  lemma CubeRoots0Low()
    ensures CubeRootBits(0x428a2f98, 2) && CubeRootBits(0x71374491, 3) && CubeRootBits(0xb5c0fbcf, 5) && CubeRootBits(0xe9b5dba5, 7)
    ensures CubeRootBits(0x3956c25b, 11) && CubeRootBits(0x59f111f1, 13) && CubeRootBits(0x923f82a4, 17) && CubeRootBits(0xab1c5ed5, 19)
  {
  }

  lemma CubeRoots0High()
    ensures CubeRootBits(0xd807aa98, 23) && CubeRootBits(0x12835b01, 29) && CubeRootBits(0x243185be, 31) && CubeRootBits(0x550c7dc3, 37)
    ensures CubeRootBits(0x72be5d74, 41) && CubeRootBits(0x80deb1fe, 43) && CubeRootBits(0x9bdc06a7, 47) && CubeRootBits(0xc19bf174, 53)
  {
  }

  lemma Row0IsCubeRoots()
    ensures |ConstantsRow0()| == |PrimesRow0()| == 16
    ensures forall i :: 0 <= i < 16 ==> CubeRootBits(ConstantsRow0()[i], PrimesRow0()[i])
  {
    hide CubeRootBits;
    CubeRoots0Low();
    CubeRoots0High();
  }

  lemma CubeRoots1Low()
    ensures CubeRootBits(0xe49b69c1, 59) && CubeRootBits(0xefbe4786, 61) && CubeRootBits(0x0fc19dc6, 67) && CubeRootBits(0x240ca1cc, 71)
    ensures CubeRootBits(0x2de92c6f, 73) && CubeRootBits(0x4a7484aa, 79) && CubeRootBits(0x5cb0a9dc, 83) && CubeRootBits(0x76f988da, 89)
  {
  }

  lemma CubeRoots1High()
    ensures CubeRootBits(0x983e5152, 97) && CubeRootBits(0xa831c66d, 101) && CubeRootBits(0xb00327c8, 103) && CubeRootBits(0xbf597fc7, 107)
    ensures CubeRootBits(0xc6e00bf3, 109) && CubeRootBits(0xd5a79147, 113) && CubeRootBits(0x06ca6351, 127) && CubeRootBits(0x14292967, 131)
  {
  }

  lemma Row1IsCubeRoots()
    ensures |ConstantsRow1()| == |PrimesRow1()| == 16
    ensures forall i :: 0 <= i < 16 ==> CubeRootBits(ConstantsRow1()[i], PrimesRow1()[i])
  {
    hide CubeRootBits;
    CubeRoots1Low();
    CubeRoots1High();
  }

  lemma CubeRoots2Low()
    ensures CubeRootBits(0x27b70a85, 137) && CubeRootBits(0x2e1b2138, 139) && CubeRootBits(0x4d2c6dfc, 149) && CubeRootBits(0x53380d13, 151)
    ensures CubeRootBits(0x650a7354, 157) && CubeRootBits(0x766a0abb, 163) && CubeRootBits(0x81c2c92e, 167) && CubeRootBits(0x92722c85, 173)
  {
  }

  lemma CubeRoots2High()
    ensures CubeRootBits(0xa2bfe8a1, 179) && CubeRootBits(0xa81a664b, 181) && CubeRootBits(0xc24b8b70, 191) && CubeRootBits(0xc76c51a3, 193)
    ensures CubeRootBits(0xd192e819, 197) && CubeRootBits(0xd6990624, 199) && CubeRootBits(0xf40e3585, 211) && CubeRootBits(0x106aa070, 223)
  {
  }

  lemma Row2IsCubeRoots()
    ensures |ConstantsRow2()| == |PrimesRow2()| == 16
    ensures forall i :: 0 <= i < 16 ==> CubeRootBits(ConstantsRow2()[i], PrimesRow2()[i])
  {
    hide CubeRootBits;
    CubeRoots2Low();
    CubeRoots2High();
  }

  lemma CubeRoots3Low()
    ensures CubeRootBits(0x19a4c116, 227) && CubeRootBits(0x1e376c08, 229) && CubeRootBits(0x2748774c, 233) && CubeRootBits(0x34b0bcb5, 239)
    ensures CubeRootBits(0x391c0cb3, 241) && CubeRootBits(0x4ed8aa4a, 251) && CubeRootBits(0x5b9cca4f, 257) && CubeRootBits(0x682e6ff3, 263)
  {
  }

  lemma CubeRoots3High()
    ensures CubeRootBits(0x748f82ee, 269) && CubeRootBits(0x78a5636f, 271) && CubeRootBits(0x84c87814, 277) && CubeRootBits(0x8cc70208, 281)
    ensures CubeRootBits(0x90befffa, 283) && CubeRootBits(0xa4506ceb, 293) && CubeRootBits(0xbef9a3f7, 307) && CubeRootBits(0xc67178f2, 311)
  {
  }

  lemma Row3IsCubeRoots()
    ensures |ConstantsRow3()| == |PrimesRow3()| == 16
    ensures forall i :: 0 <= i < 16 ==> CubeRootBits(ConstantsRow3()[i], PrimesRow3()[i])
  {
    hide CubeRootBits;
    CubeRoots3Low();
    CubeRoots3High();
  }

  function Prime(t: nat): int
    requires t < 64
  {
    if t < 16 then PrimesRow0()[t]
    else if t < 32 then PrimesRow1()[t - 16]
    else if t < 48 then PrimesRow2()[t - 32]
    else PrimesRow3()[t - 48]
  }

  /** Every round constant is a cube-root fraction of its prime. */
  lemma RoundConstantsAreCubeRoots(t: nat)
    requires t < 64
    ensures CubeRootBits(RoundConstant(t), Prime(t))
  {
    hide CubeRootBits, ConstantsRow0, ConstantsRow1, ConstantsRow2, ConstantsRow3;
    hide PrimesRow0, PrimesRow1, PrimesRow2, PrimesRow3;
    Row0IsCubeRoots();
    Row1IsCubeRoots();
    Row2IsCubeRoots();
    Row3IsCubeRoots();
  }

  /** The initial hash value holds the square-root fractions of the first eight primes. */
  lemma InitialHashIsSquareRoots()
    ensures forall i :: 0 <= i < 8 ==> SquareRootBits(InitialHash()[i], PrimesRow0()[i])
  {
    assert SquareRootBits(0x6a09e667, 2)
        && SquareRootBits(0xbb67ae85, 3)
        && SquareRootBits(0x3c6ef372, 5)
        && SquareRootBits(0xa54ff53a, 7)
        && SquareRootBits(0x510e527f, 11)
        && SquareRootBits(0x9b05688c, 13)
        && SquareRootBits(0x1f83d9ab, 17)
        && SquareRootBits(0x5be0cd19, 19);
  }
}
