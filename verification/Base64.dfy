/** Base64 of sdk-c/src/nff_store.c, against the number-theoretic reading of RFC 4648
    section 4: the sextets and the octets spell the same number. */
module Base64 {
  import opened Bytes

  type sextet = v: int | 0 <= v < 64

  // ---------------------------------------------------------------------
  // The alphabet
  // ---------------------------------------------------------------------

  function Letter(v: sextet): char {
    if v < 26 then (v + 'A' as int) as char
    else if v < 52 then (v - 26 + 'a' as int) as char
    else if v < 62 then (v - 52 + '0' as int) as char
    else if v == 62 then '+' else '/'
  }

  /** `Letter` is the 64-character table of the C code. */
  lemma LetterIsTable()
    ensures "ABCDEFGHIJKLMNOPQRSTUVWXYZabcdefghijklmnopqrstuvwxyz0123456789+/" == [
              Letter(0), Letter(1), Letter(2), Letter(3), Letter(4), Letter(5), Letter(6), Letter(7),
              Letter(8), Letter(9), Letter(10), Letter(11), Letter(12), Letter(13), Letter(14), Letter(15),
              Letter(16), Letter(17), Letter(18), Letter(19), Letter(20), Letter(21), Letter(22), Letter(23),
              Letter(24), Letter(25), Letter(26), Letter(27), Letter(28), Letter(29), Letter(30), Letter(31),
              Letter(32), Letter(33), Letter(34), Letter(35), Letter(36), Letter(37), Letter(38), Letter(39),
              Letter(40), Letter(41), Letter(42), Letter(43), Letter(44), Letter(45), Letter(46), Letter(47),
              Letter(48), Letter(49), Letter(50), Letter(51), Letter(52), Letter(53), Letter(54), Letter(55),
              Letter(56), Letter(57), Letter(58), Letter(59), Letter(60), Letter(61), Letter(62), Letter(63)]
  {
  }

  /** The value of a character, or -1 outside the alphabet. */
  function Value(c: char): (v: int)
    ensures -1 <= v < 64
  {
    if 'A' <= c <= 'Z' then c as int - 'A' as int
    else if 'a' <= c <= 'z' then c as int - 'a' as int + 26
    else if '0' <= c <= '9' then c as int - '0' as int + 52
    else if c == '+' then 62
    else if c == '/' then 63
    else -1
  }

  lemma LetterReadsBack(v: sextet)
    ensures Value(Letter(v)) == v
    ensures Letter(v) != '=' && Letter(v) != '\0'
  {
  }

  /** Every other character has no value. */
  lemma OnlyLettersCount(c: char)
    ensures Value(c) >= 0 ==> c == Letter(Value(c))
  {
  }

  // ---------------------------------------------------------------------
  // RFC 4648 section 4: sextets and octets spell the same number
  // ---------------------------------------------------------------------

  /** The big-endian number written by sextets. */
  function Number64(v: seq<sextet>): nat {
    if v == [] then 0 else Number64(v[..|v| - 1]) * 64 + v[|v| - 1]
  }

  /** 2^n for the bit counts that can be left over: 0, 2, 4 or 6. */
  function Leftover(n: int): (p: nat)
    ensures p > 0
  {
    if n == 0 then 1 else if n == 2 then 4 else if n == 4 then 16 else 64
  }

  /** `v` is the shortest sextet string for `b`: the bits of `b`, zero-padded on the right. */
  ghost predicate IsEncoding(b: seq<byte>, v: seq<sextet>) {
    && |v| == (8 * |b| + 5) / 6
    && Number64(v) == Number256(b) * Leftover(6 * |v| - 8 * |b|)
  }

  /** `b` is the whole octets of the bits of `v`; the bits left over are dropped. */
  ghost predicate IsDecoding(v: seq<sextet>, b: seq<byte>) {
    && |b| == 6 * |v| / 8
    && Number256(b) == Number64(v) / Leftover(6 * |v| - 8 * |b|)
  }

  lemma {:induction false} NumberIsInjective(a: seq<byte>, b: seq<byte>)
    requires |a| == |b| && Number256(a) == Number256(b)
    ensures a == b
  {
    if a != [] {
      var n := |a| - 1;
      LastDigit(Number256(a[..n]), a[n]);
      LastDigit(Number256(b[..n]), b[n]);
      NumberIsInjective(a[..n], b[..n]);
      assert a == a[..n] + [a[n]] && b == b[..n] + [b[n]];
    }
  }

  lemma LastDigit(q: nat, r: byte)
    ensures (q * 256 + r) % 256 == r && (q * 256 + r) / 256 == q
  {
  }

  /** Decoding inverts encoding. */
  lemma DecodingInvertsEncoding(b: seq<byte>, v: seq<sextet>, b': seq<byte>)
    requires IsEncoding(b, v) && IsDecoding(v, b')
    ensures b' == b
  {
    var p := Leftover(6 * |v| - 8 * |b|);
    assert |b'| == |b|;
    assert (Number256(b) * p) / p == Number256(b);
    NumberIsInjective(b', b);
  }

  // ---------------------------------------------------------------------
  // Encoding
  // ---------------------------------------------------------------------

  /** The 24-bit group: the octets from the top, zeros below. */
  function Packed(b: seq<byte>): (n: nat)
    requires 1 <= |b| <= 3
    ensures n < 0x100_0000
  {
    (b[0] as int) * 0x1_0000
    + (if |b| > 1 then (b[1] as int) * 0x100 else 0)
    + (if |b| > 2 then b[2] as int else 0)
  }

  /** The sextets of one group of one to three octets. */
  function GroupSextets(b: seq<byte>): (v: seq<sextet>)
    requires 1 <= |b| <= 3
    ensures |v| == |b| + 1
  {
    var n := Packed(b);
    [n / 0x4_0000 % 64, n / 0x1000 % 64]
    + (if |b| > 1 then [n / 64 % 64] else [])
    + (if |b| > 2 then [n % 64] else [])
  }

  function Sextets(b: seq<byte>): seq<sextet> {
    if b == [] then []
    else if |b| <= 3 then GroupSextets(b)
    else GroupSextets(b[..3]) + Sextets(b[3..])
  }

  function Letters(v: seq<sextet>): (s: string)
    ensures |s| == |v|
  {
    seq(|v|, i requires 0 <= i < |v| => Letter(v[i]))
  }

  /** The padded text: four characters for every started group of three octets. */
  function EncodeText(b: seq<byte>): string {
    if b == [] then []
    else if |b| == 1 then Letters(GroupSextets(b)) + "=="
    else if |b| == 2 then Letters(GroupSextets(b)) + "="
    else Letters(GroupSextets(b[..3])) + EncodeText(b[3..])
  }

  /** The length of the text of `n` octets. */
  function TextLength(n: nat): nat {
    (n + 2) / 3 * 4
  }

  lemma {:induction false} EncodeTextLength(b: seq<byte>)
    ensures |EncodeText(b)| == TextLength(|b|)
  {
    if |b| > 2 {
      EncodeTextLength(b[3..]);
    }
  }

  lemma Number64Step(v: seq<sextet>)
    requires v != []
    ensures Number64(v) == Number64(v[..|v| - 1]) * 64 + v[|v| - 1]
  {
  }

  lemma Number256Step(b: seq<byte>)
    requires b != []
    ensures Number256(b) == Number256(b[..|b| - 1]) * 256 + b[|b| - 1]
  {
  }

  lemma ShiftDigit(x: nat, p: nat, y: nat, d: nat)
    ensures (x * p + y) * 64 + d == x * (p * 64) + (y * 64 + d)
    ensures (x * p + y) * 256 + d == x * (p * 256) + (y * 256 + d)
  {
  }

  lemma {:induction false} Number64Append(v: seq<sextet>, w: seq<sextet>)
    ensures Number64(v + w) == Number64(v) * Pow64(|w|) + Number64(w)
  {
    if w == [] {
      assert v + w == v;
    } else {
      var n := |w| - 1;
      assert (v + w)[..|v + w| - 1] == v + w[..n];
      Number64Append(v, w[..n]);
      Number64Step(v + w);
      Number64Step(w);
      assert Pow64(n + 1) == Pow64(n) * 64;
      hide Number64, Pow64;
      ShiftDigit(Number64(v), Pow64(n), Number64(w[..n]), w[n]);
    }
  }

  function Pow64(n: nat): nat {
    if n == 0 then 1 else Pow64(n - 1) * 64
  }

  lemma {:induction false} Number256Append(a: seq<byte>, b: seq<byte>)
    ensures Number256(a + b) == Number256(a) * Pow256(|b|) + Number256(b)
  {
    if b == [] {
      assert a + b == a;
    } else {
      var n := |b| - 1;
      assert (a + b)[..|a + b| - 1] == a + b[..n];
      Number256Append(a, b[..n]);
      Number256Step(a + b);
      Number256Step(b);
      assert Pow256(n + 1) == Pow256(n) * 256;
      hide Number256, Pow256;
      ShiftDigit(Number256(a), Pow256(n), Number256(b[..n]), b[n]);
    }
  }

  lemma GroupIsEncoding(b: seq<byte>)
    requires 1 <= |b| <= 3
    ensures IsEncoding(b, GroupSextets(b))
  {
    NumberOfGroup(b);
    NumberOfSextets(GroupSextets(b));
    SplitIntoSextets(Packed(b));
  }

  lemma SplitIntoSextets(n: nat)
    requires n < 0x100_0000
    ensures (n / 0x4_0000 % 64) * 64 + n / 0x1000 % 64 == n / 0x1000
    ensures (n / 0x1000) * 64 + n / 64 % 64 == n / 64
    ensures (n / 64) * 64 + n % 64 == n
  {
  }

  lemma NumberOfGroup(b: seq<byte>)
    requires 1 <= |b| <= 3
    ensures Number256(b) * (if |b| == 1 then 0x1_0000 else if |b| == 2 then 0x100 else 1) == Packed(b)
  {
    assert b[..1] == [b[0]] && Number256([b[0]]) == b[0];
    if |b| > 1 {
      assert b[..2][..1] == b[..1];
      assert Number256(b[..2]) == (b[0] as int) * 256 + b[1];
      assert |b| == 2 ==> b[..2] == b;
      assert |b| == 3 ==> b[..3] == b && b[..|b| - 1] == b[..2];
    }
  }

  lemma NumberOfSextets(v: seq<sextet>)
    requires 2 <= |v| <= 4
    ensures var two := (v[0] as int) * 64 + v[1];
            Number64(v) ==
              if |v| == 2 then two
              else if |v| == 3 then two * 64 + v[2]
              else (two * 64 + v[2]) * 64 + v[3]
  {
    assert v[..2][..1] == v[..1] == [v[0]] && Number64([v[0]]) == v[0];
    assert Number64(v[..2]) == (v[0] as int) * 64 + v[1];
    if |v| > 2 {
      assert v[..3][..2] == v[..2];
      assert Number64(v[..3]) == Number64(v[..2]) * 64 + v[2];
    }
    assert v[..|v|] == v;
  }

  /** The sextets the encoder writes are the RFC encoding. */
  lemma {:induction false} SextetsIsEncoding(b: seq<byte>)
    ensures IsEncoding(b, Sextets(b))
  {
    if b == [] {
    } else if |b| <= 3 {
      GroupIsEncoding(b);
    } else {
      var g, rest := GroupSextets(b[..3]), Sextets(b[3..]);
      GroupIsEncoding(b[..3]);
      SextetsIsEncoding(b[3..]);
      assert b == b[..3] + b[3..];
      Number256Append(b[..3], b[3..]);
      Number64Append(g, rest);
      ScalesMatch(|b| - 3, |rest|);
      GroupsCombine(Number256(b[..3]), Pow256(|b| - 3), Number256(b[3..]), Leftover(6 * |rest| - 8 * |b[3..]|));
    }
  }

  lemma GroupsCombine(hi: nat, scale: nat, lo: nat, p: nat)
    ensures hi * (scale * p) + lo * p == (hi * scale + lo) * p
  {
  }

  /** 64^m is 256^n times two to the bits left over. */
  lemma {:induction false} ScalesMatch(n: nat, m: nat)
    requires m == (8 * n + 5) / 6
    ensures Pow64(m) == Pow256(n) * Leftover(6 * m - 8 * n)
  {
    if n >= 3 {
      ScalesMatch(n - 3, m - 4);
      assert Pow64(m) == Pow64(m - 4) * 0x100_0000 by {
        assert Pow64(m) == Pow64(m - 1) * 64 && Pow64(m - 1) == Pow64(m - 2) * 64;
        assert Pow64(m - 2) == Pow64(m - 3) * 64 && Pow64(m - 3) == Pow64(m - 4) * 64;
      }
      assert Pow256(n) == Pow256(n - 3) * 0x100_0000 by {
        assert Pow256(n) == Pow256(n - 1) * 256 && Pow256(n - 1) == Pow256(n - 2) * 256;
        assert Pow256(n - 2) == Pow256(n - 3) * 256;
      }
    } else if n == 2 {
      assert Pow64(3) == 64 * 64 * 64 && Pow256(2) == 256 * 256;
    } else if n == 1 {
      assert Pow64(2) == 64 * 64 && Pow256(1) == 256;
    }
  }

  lemma {:induction false} EncodeTextAppend(a: seq<byte>, b: seq<byte>)
    requires |a| % 3 == 0
    ensures EncodeText(a + b) == EncodeText(a) + EncodeText(b)
  {
    if a == [] {
      assert a + b == b;
    } else {
      assert (a + b)[..3] == a[..3] && (a + b)[3..] == a[3..] + b;
      EncodeTextAppend(a[3..], b);
    }
  }

  /** Octet `i` starts a group, and the group goes to character `o`. */
  predicate Aligned(i: nat, o: nat) {
    i % 3 == 0 && 3 * o == 4 * i
  }

  /** `nff_b64_encode`: -1 when `out` cannot hold the text and its terminator. */
  method Encode(inp: seq<byte>, out: array<char>) returns (n: int)
    modifies out
    ensures n == -1 <==> out.Length < TextLength(|inp|) + 1
    ensures n != -1 ==> n == |EncodeText(inp)| < out.Length && out[..n] == EncodeText(inp) && out[n] == '\0'
  {
    EncodeTextLength(inp);
    if out.Length < TextLength(|inp|) + 1 {
      return -1;
    }
    hide EncodeText, Taken, NextGroup, TextLength, Aligned;
    EmptyText();
    TakenEnds(inp, |inp|);
    var o, i := 0, 0;
    RoomForGroup(0, 0, |inp|);
    while i < |inp|
      invariant 0 <= i && Aligned(i, o) && o <= TextLength(|inp|)
      invariant out[..o] == EncodeText(Taken(inp, i))
      decreases |inp| - i
    {
      RoomForGroup(i, o, |inp|);
      PutGroup(inp, i, out, o);
      GroupAppended(inp, i, o);
      assert out[..o + 4] == out[..o] + out[o..o + 4];
      o, i := o + 4, i + 3;
    }
    TakenEnds(inp, i);
    out[o] := '\0';
    n := o;
  }

  /** The first `i` octets, or all of them. */
  function Taken(inp: seq<byte>, i: nat): seq<byte> {
    if i < |inp| then inp[..i] else inp
  }

  lemma TakenEnds(inp: seq<byte>, i: nat)
    ensures Taken(inp, 0) == [] && (i >= |inp| ==> Taken(inp, i) == inp)
  {
  }

  function NextGroup(inp: seq<byte>, i: nat): (g: seq<byte>)
    requires i < |inp|
    ensures 1 <= |g| <= 3
  {
    inp[i..if |inp| - i > 3 then i + 3 else |inp|]
  }

  lemma GroupAppended(inp: seq<byte>, i: nat, o: nat)
    requires i < |inp| && Aligned(i, o)
    ensures EncodeText(Taken(inp, i)) + EncodeText(NextGroup(inp, i)) == EncodeText(Taken(inp, i + 3))
  {
    hide EncodeText;
    EncodeTextAppend(inp[..i], NextGroup(inp, i));
    assert inp[..i] + NextGroup(inp, i) == Taken(inp, i + 3);
  }

  lemma EmptyText()
    ensures EncodeText([]) == []
  {
  }

  /** The loop body: one group of up to three octets becomes four characters. */
  method PutGroup(inp: seq<byte>, i: nat, out: array<char>, o: nat)
    requires i < |inp| && o + 4 <= out.Length
    modifies out
    ensures out[..o] == old(out[..o])
    ensures out[o..o + 4] == EncodeText(NextGroup(inp, i))
  {
    hide Letter, EncodeText;
    var rem := |inp| - i;
    ghost var group := NextGroup(inp, i);
    GroupText(group);
    var n := (inp[i] as int) * 0x1_0000;
    if rem > 1 { n := n + (inp[i + 1] as int) * 0x100; }
    if rem > 2 { n := n + inp[i + 2]; }
    assert n == Packed(group);
    out[o] := Letter(n / 0x4_0000 % 64);
    out[o + 1] := Letter(n / 0x1000 % 64);
    out[o + 2] := if rem > 1 then Letter(n / 64 % 64) else '=';
    out[o + 3] := if rem > 2 then Letter(n % 64) else '=';
  }

  lemma GroupText(b: seq<byte>)
    requires 1 <= |b| <= 3
    ensures var n := Packed(b);
            EncodeText(b) == [Letter(n / 0x4_0000 % 64), Letter(n / 0x1000 % 64),
                              if |b| > 1 then Letter(n / 64 % 64) else '=',
                              if |b| > 2 then Letter(n % 64) else '=']
  {
    hide Letter, Packed, Letters, EncodeText;
    LettersListed(GroupSextets(b));
    PaddedGroup(b);
  }

  lemma PaddedGroup(b: seq<byte>)
    requires 1 <= |b| <= 3
    ensures EncodeText(b) == Letters(GroupSextets(b)) + (if |b| == 1 then "==" else if |b| == 2 then "=" else [])
  {
    hide Letter, Packed, Letters, GroupSextets;
    if |b| == 3 {
      assert b[..3] == b && b[3..] == [];
    }
  }

  lemma LettersListed(v: seq<sextet>)
    requires 2 <= |v| <= 4
    ensures Letters(v) == [Letter(v[0]), Letter(v[1])]
                          + (if |v| > 2 then [Letter(v[2])] else [])
                          + (if |v| > 3 then [Letter(v[3])] else [])
  {
    hide Letter;
  }

  lemma RoomForGroup(i: nat, o: nat, n: nat)
    requires Aligned(i, o)
    ensures Aligned(0, 0) && Aligned(i + 3, o + 4)
    ensures i < n ==> o + 4 <= TextLength(n)
  {
  }

  // ---------------------------------------------------------------------
  // Decoding
  // ---------------------------------------------------------------------

  /** The sextets the decoder sees: alphabet characters up to the first '=' or NUL. */
  function Payload(s: string): seq<sextet> {
    if s == [] || s[0] == '=' || s[0] == '\0' then []
    else if Value(s[0]) < 0 then Payload(s[1..])
    else [Value(s[0])] + Payload(s[1..])
  }

  lemma {:induction false} PayloadOfLetters(v: seq<sextet>, rest: string)
    ensures Payload(Letters(v) + rest) == v + Payload(rest)
  {
    if v == [] {
      assert Letters(v) + rest == rest;
    } else {
      LetterReadsBack(v[0]);
      var s := Letters(v) + rest;
      assert s[0] == Letter(v[0]) && s[1..] == Letters(v[1..]) + rest;
      PayloadOfLetters(v[1..], rest);
    }
  }

  lemma {:induction false} PayloadOfText(b: seq<byte>)
    ensures Payload(EncodeText(b)) == Sextets(b)
  {
    if b == [] {
    } else if |b| <= 2 {
      var pad := if |b| == 1 then "==" else "=";
      PayloadOfLetters(GroupSextets(b), pad);
      assert Payload(pad) == [];
    } else {
      PayloadOfLetters(GroupSextets(b[..3]), EncodeText(b[3..]));
      PayloadOfText(b[3..]);
      if |b| == 3 {
        assert b[..3] == b && b[3..] == [];
      }
    }
  }

  /** A character that completes no octet leaves the delivered number alone. */
  lemma StepWithoutOutput(n: nat, v: sextet, bits: int)
    requires bits == 0
    ensures (n * 64 + v) / Leftover(bits + 6) == n / Leftover(bits)
  {
  }

  /** The accumulator is the number read so far modulo 2^32. */
  lemma AccumulatorWraps(n: nat, v: sextet)
    ensures (n % TWO32 * 64 + v) % TWO32 == (n * 64 + v) % TWO32
  {
    var q, r := n / TWO32, n % TWO32;
    assert n * 64 + v == TWO32 * (64 * q) + (r * 64 + v);
    DropWraps(64 * q, r * 64 + v);
  }

  lemma DropWraps(k: nat, x: nat)
    ensures (TWO32 * k + x) % TWO32 == x % TWO32
  {
  }

  /** A character that completes an octet: the octet taken from the accumulator is the next
      one of the number, so the low `bits` bits are always the bits not delivered yet. */
  lemma StepWithOutput(n: nat, v: sextet, bits: int)
    requires bits == 2 || bits == 4 || bits == 6
    ensures (n * 64 + v) / Leftover(bits - 2)
         == n / Leftover(bits) * 256 + ((n * 64 + v) % TWO32) / Leftover(bits - 2) % 256
  {
    var m, p := n * 64 + v, Leftover(bits - 2);
    WrapKeepsByte(m, p);
    var q, r := n / Leftover(bits), n % Leftover(bits);
    if bits == 2 {
      NextOctet(q, r, v, 4, 1);
    } else if bits == 4 {
      NextOctet(q, r, v, 16, 4);
    } else {
      NextOctet(q, r, v, 64, 16);
    }
  }

  lemma NextOctet(q: nat, r: nat, v: sextet, wide: nat, p: nat)
    requires (wide, p) in {(4, 1), (16, 4), (64, 16)} && r < wide
    ensures ((wide * q + r) * 64 + v) / p == q * 256 + ((wide * q + r) * 64 + v) / p % 256
  {
    var low := (64 * r + v) / p;
    if p == 1 {
      assert ((wide * q + r) * 64 + v) / p == 256 * q + low;
    } else if p == 4 {
      assert ((wide * q + r) * 64 + v) / p == 256 * q + low;
    } else {
      assert ((wide * q + r) * 64 + v) / p == 256 * q + low;
    }
  }

  /** The wrapped accumulator still holds the next octet. */
  lemma WrapKeepsByte(m: nat, p: nat)
    requires p == 1 || p == 4 || p == 16
    ensures (m % TWO32) / p % 256 == m / p % 256
  {
    var t, u := m / TWO32, m % TWO32;
    assert m == TWO32 * t + u;
    if p == 1 {
      DropMultiple(0x100_0000 * t, u);
    } else if p == 4 {
      assert m / 4 == 256 * (0x40_0000 * t) + u / 4;
      DropMultiple(0x40_0000 * t, u / 4);
    } else {
      assert m / 16 == 256 * (0x10_0000 * t) + u / 16;
      DropMultiple(0x10_0000 * t, u / 16);
    }
  }

  lemma DropMultiple(k: nat, x: nat)
    ensures (256 * k + x) % 256 == x % 256
  {
  }

  /** The decoder after the sextets `seen`: the accumulator wraps, its low `bits` bits are
      exactly the bits not delivered yet, and the octets written are the whole ones before. */
  ghost predicate Holding(seen: seq<sextet>, acc: nat, bits: int, written: seq<byte>) {
    && acc == Number64(seen) % TWO32
    && (bits == 0 || bits == 2 || bits == 4 || bits == 6)
    && 8 * |written| + bits == 6 * |seen|
    && Number256(written) == Number64(seen) / Leftover(bits)
  }

  /** One more character in the 32-bit accumulator. */
  function Pushed(acc: nat, v: sextet): nat {
    (acc * 64 + v) % TWO32
  }

  /** The octet above the lowest `bits` bits. */
  function OctetAbove(acc: nat, bits: int): byte {
    acc / Leftover(bits) % 256
  }

  lemma HoldingNothing()
    ensures Holding([], 0, 0, [])
  {
  }

  lemma HoldingMore(seen: seq<sextet>, acc: nat, written: seq<byte>, v: sextet)
    requires Holding(seen, acc, 0, written)
    ensures Holding(seen + [v], Pushed(acc, v), 6, written)
  {
    var n := Number64(seen);
    AccumulatorWraps(n, v);
    StepWithoutOutput(n, v, 0);
    NumbersGrow(seen, v, [], 0);
    hide Number64, Number256, Leftover;
  }

  lemma HoldingOctet(seen: seq<sextet>, acc: nat, bits: int, written: seq<byte>, v: sextet)
    requires Holding(seen, acc, bits, written) && bits != 0
    ensures var acc' := Pushed(acc, v);
            Holding(seen + [v], acc', bits - 2, written + [OctetAbove(acc', bits - 2)])
  {
    var n := Number64(seen);
    hide Number64, Number256, Leftover;
    AccumulatorWraps(n, v);
    StepWithOutput(n, v, bits);
    NumbersGrow(seen, v, written, OctetAbove(Pushed(acc, v), bits - 2));
  }

  lemma HoldingIsDecoding(seen: seq<sextet>, acc: nat, bits: int, written: seq<byte>)
    requires Holding(seen, acc, bits, written)
    ensures IsDecoding(seen, written) && |written| == 6 * |seen| / 8
  {
    hide Number64, Number256, Leftover;
  }

  /** What one round of the decoding loop learns about the characters that count. */
  lemma PayloadRound(inp: string, i: nat, seen: seq<sextet>)
    requires i < |inp| && Payload(inp) == seen + Payload(inp[i..])
    ensures inp[i] == '=' || inp[i] == '\0' ==> Payload(inp) == seen
    ensures inp[i] != '=' && inp[i] != '\0' && Value(inp[i]) < 0 ==> Payload(inp) == seen + Payload(inp[i + 1..])
    ensures inp[i] != '=' && inp[i] != '\0' && Value(inp[i]) >= 0 ==>
              && Payload(inp) == seen + [Value(inp[i])] + Payload(inp[i + 1..])
              && |Payload(inp)| > |seen|
  {
    hide Payload, Value;
    PayloadStep(inp[i..]);
    assert inp[i..][1..] == inp[i + 1..];
  }

  lemma NoRoom(sextets: nat, seen: nat, o: nat, bits: int, room: nat)
    requires sextets > seen && 8 * o + bits == 6 * seen && bits >= 2 && o >= room
    ensures 6 * sextets / 8 > room
  {
  }

  lemma PayloadRead(inp: string, seen: seq<sextet>)
    requires Payload(inp) == seen + Payload(inp[|inp|..])
    ensures Payload(inp) == seen
  {
  }

  /** `nff_b64_decode`: -1 when the octets do not fit `out`. */
  method Decode(inp: string, out: array<byte>) returns (n: int)
    modifies out
    ensures n == -1 <==> 6 * |Payload(inp)| / 8 > out.Length
    ensures n != -1 ==> 0 <= n <= out.Length && IsDecoding(Payload(inp), out[..n])
  {
    hide Leftover, Payload, Value, Holding, IsDecoding, Pushed, OctetAbove;
    var acc: nat, bits, o: nat := 0, 0, 0;
    ghost var seen: seq<sextet> := [];
    ghost var written: seq<byte> := [];
    assert inp[0..] == inp;
    HoldingNothing();
    for i := 0 to |inp|
      invariant Payload(inp) == seen + Payload(inp[i..])
      invariant o <= out.Length && out[..o] == written && Holding(seen, acc, bits, written)
      invariant 0 <= bits <= 6 && bits % 2 == 0 && 8 * o + bits == 6 * |seen|
    {
      var c := inp[i];
      PayloadRound(inp, i, seen);
      if c == '=' || c == '\0' {
        HoldingIsDecoding(seen, acc, bits, written);
        return o;
      }
      var v := Value(c);
      if v < 0 {
        continue;
      }
      ghost var before := acc;
      acc := Pushed(acc, v);
      if bits + 6 >= 8 {
        HoldingOctet(seen, before, bits, written, v);
        if o >= out.Length {
          NoRoom(|Payload(inp)|, |seen|, o, bits, out.Length);
          return -1;
        }
        bits := bits - 2;
        out[o] := OctetAbove(acc, bits);
        written := written + [out[o]];
        o := o + 1;
      } else {
        HoldingMore(seen, before, written, v);
        bits := bits + 6;
      }
      seen := seen + [v];
    }
    PayloadRead(inp, seen);
    HoldingIsDecoding(seen, acc, bits, written);
    n := o;
  }

  lemma NumbersGrow(v: seq<sextet>, x: sextet, b: seq<byte>, y: byte)
    ensures Number64(v + [x]) == Number64(v) * 64 + x
    ensures Number256(b + [y]) == Number256(b) * 256 + y
  {
    assert (v + [x])[..|v|] == v && (b + [y])[..|b|] == b;
  }

  lemma PayloadStep(s: string)
    ensures s == [] ==> Payload(s) == []
    ensures s != [] ==>
              Payload(s) == if s[0] == '=' || s[0] == '\0' then []
                            else if Value(s[0]) < 0 then Payload(s[1..])
                            else [Value(s[0])] + Payload(s[1..])
  {
  }

  /** Decoding the encoding gives the octets back, whenever the buffer has room for them. */
  lemma RoundTrip(b: seq<byte>, b': seq<byte>)
    requires IsDecoding(Payload(EncodeText(b)), b')
    ensures b' == b
  {
    PayloadOfText(b);
    SextetsIsEncoding(b);
    DecodingInvertsEncoding(b, Sextets(b), b');
  }

  lemma {:induction false} PayloadLength(s: string)
    ensures |Payload(s)| <= |s|
  {
    if s != [] {
      PayloadLength(s[1..]);
    }
  }

  lemma EncodingDecodes(b: seq<byte>)
    ensures IsDecoding(Payload(EncodeText(b)), b)
  {
    PayloadOfText(b);
    SextetsIsEncoding(b);
    var p := Leftover(6 * |Sextets(b)| - 8 * |b|);
    assert (Number256(b) * p) / p == Number256(b);
  }

  lemma DecodedSize(b: seq<byte>)
    ensures 6 * |Payload(EncodeText(b))| / 8 == |b| <= |EncodeText(b)|
  {
    PayloadOfText(b);
    SextetsIsEncoding(b);
    EncodeTextLength(b);
  }

  // ---------------------------------------------------------------------
  // Known answers, and what the decoder skips
  // ---------------------------------------------------------------------

  lemma GroupVectors()
    ensures GroupSextets([0x66]) == [25, 32] && GroupSextets([0x66, 0x6f]) == [25, 38, 60]
    ensures GroupSextets([0x66, 0x6f, 0x6f]) == [25, 38, 61, 47] && GroupSextets([0x62]) == [24, 32]
  {
  }

  lemma LetterVectors()
    ensures Letters([25, 32]) == "Zg" && Letters([25, 38, 60]) == "Zm8"
    ensures Letters([25, 38, 61, 47]) == "Zm9v" && Letters([24, 32]) == "Yg"
  {
  }

  /** Test vectors of RFC 4648, section 10. */
  lemma Rfc4648Vectors()
    ensures EncodeText([]) == "" && EncodeText([0x66]) == "Zg==" && EncodeText([0x66, 0x6f]) == "Zm8="
    ensures EncodeText([0x66, 0x6f, 0x6f]) == "Zm9v" && EncodeText([0x66, 0x6f, 0x6f, 0x62]) == "Zm9vYg=="
  {
    hide GroupSextets, Letters;
    GroupVectors();
    LetterVectors();
    var four: seq<byte> := [0x66, 0x6f, 0x6f, 0x62];
    assert four[..3] == [0x66, 0x6f, 0x6f] && four[3..] == [0x62];
    assert [0x66, 0x6f, 0x6f][..3] == [0x66, 0x6f, 0x6f] && [0x66, 0x6f, 0x6f][3..] == [];
  }

  /** A character outside the alphabet is skipped wherever it stands; a padding character or a
      NUL ends the text. */
  lemma {:induction false} DecoderSkips(a: string, c: char, b: string)
    ensures c == '=' || c == '\0' ==> Payload(a + [c] + b) == Payload(a)
    ensures Value(c) < 0 && c != '=' && c != '\0' ==> Payload(a + [c] + b) == Payload(a + b)
  {
    var s := a + [c] + b;
    if a == [] {
      assert s[1..] == b && a + b == b;
    } else {
      DecoderSkips(a[1..], c, b);
      assert s[1..] == a[1..] + [c] + b && (a + b)[1..] == a[1..] + b;
    }
  }
}
