/** Octets and their hexadecimal form. */
module Bytes {
  type byte = b: int | 0 <= b < 256

  const TWO32 := 0x1_0000_0000

  function Pow256(n: nat): nat {
    if n == 0 then 1 else 256 * Pow256(n - 1)
  }

  /** The big-endian number written by octets. */
  function Number256(b: seq<byte>): nat {
    if b == [] then 0 else Number256(b[..|b| - 1]) * 256 + b[|b| - 1]
  }

  function HexDigit(n: int): char
    requires 0 <= n < 16
  {
    if n < 10 then (n + '0' as int) as char else (n - 10 + 'a' as int) as char
  }

  /** The C expression that reads one hexadecimal digit of either case. */
  function Nibble(c: char): int {
    if c >= 'a' then c as int - 'a' as int + 10
    else if c >= 'A' then c as int - 'A' as int + 10
    else c as int - '0' as int
  }

  /** Two lower-case digits per octet. */
  function Hex(b: seq<byte>): (s: string)
    ensures |s| == 2 * |b|
    ensures forall c :: c in s ==> '0' <= c <= '9' || 'a' <= c <= 'f'
  {
    if b == [] then [] else Hex(b[..|b| - 1]) + [HexDigit(b[|b| - 1] / 16), HexDigit(b[|b| - 1] % 16)]
  }

  /** The octets of a digit string; the C code reads 32 of them for a digest. */
  function Unhex(s: string): seq<int>
    requires |s| % 2 == 0
  {
    if s == [] then [] else Unhex(s[..|s| - 2]) + [Nibble(s[|s| - 2]) * 16 + Nibble(s[|s| - 1])]
  }

  lemma NibbleOfDigit(n: int)
    requires 0 <= n < 16
    ensures Nibble(HexDigit(n)) == n
  {
  }

  /** Digits are written in lower case and read in either. */
  lemma DigitTable(n: nat)
    requires n < 16
    ensures HexDigit(n) == "0123456789abcdef"[n] && Nibble("0123456789ABCDEF"[n]) == n
  {
  }

  lemma UnhexStep(s: string, hi: char, lo: char)
    requires |s| % 2 == 0
    ensures |s + [hi, lo]| % 2 == 0
    ensures Unhex(s + [hi, lo]) == Unhex(s) + [Nibble(hi) * 16 + Nibble(lo)]
  {
    var u := s + [hi, lo];
    assert |u| % 2 == 0;
    assert u[..|u| - 2] == s;
    assert u[|u| - 2] == hi && u[|u| - 1] == lo;
  }

  lemma DigitsOfByte(x: byte)
    ensures Nibble(HexDigit(x / 16)) * 16 + Nibble(HexDigit(x % 16)) == x
  {
    hide Nibble, HexDigit;
    NibbleOfDigit(x / 16);
    NibbleOfDigit(x % 16);
  }

  lemma HexStep(b: seq<byte>)
    requires b != []
    ensures var n := |b| - 1; Hex(b) == Hex(b[..n]) + [HexDigit(b[n] / 16), HexDigit(b[n] % 16)]
  {
  }

  lemma NoOctets()
    ensures Unhex(Hex([])) == []
  {
  }

  lemma {:induction false} UnhexInvertsHex(b: seq<byte>)
    ensures Unhex(Hex(b)) == b
  {
    hide Nibble, HexDigit, Unhex, Hex;
    if b == [] {
      NoOctets();
    } else {
      var n := |b| - 1;
      UnhexInvertsHex(b[..n]);
      HexStep(b);
      UnhexStep(Hex(b[..n]), HexDigit(b[n] / 16), HexDigit(b[n] % 16));
      DigitsOfByte(b[n]);
      assert b == b[..n] + [b[n]];
    }
  }
}
