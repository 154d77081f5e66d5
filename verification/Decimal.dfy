/** Decimal printing (the %u and %lu of printf) and splitting at a separator. */
module Decimal {
  import opened Bytes

  predicate IsDigit(c: char) {
    '0' <= c <= '9'
  }

  function DigitValue(c: char): int {
    c as int - '0' as int
  }

  function Print(n: nat): (s: string)
    ensures s != [] && forall c :: c in s ==> IsDigit(c)
  {
    var last := ('0' as int + n % 10) as char;
    if n < 10 then [last] else Print(n / 10) + [last]
  }

  function Parse(s: string): int {
    if s == [] then 0 else Parse(s[..|s| - 1]) * 10 + DigitValue(s[|s| - 1])
  }

  lemma {:induction false} ParseInvertsPrint(n: nat)
    ensures Parse(Print(n)) == n
  {
    var s := Print(n);
    if n >= 10 {
      assert s[..|s| - 1] == Print(n / 10);
      ParseInvertsPrint(n / 10);
    } else {
      assert s[..0] == [];
    }
  }

  /** One digit for the numbers below ten, and otherwise the last digit behind the others. */
  lemma PrintTable(n: nat)
    ensures n < 10 ==> Print(n) == ["0123456789"[n]]
    ensures n >= 10 ==> Print(n) == Print(n / 10) + Print(n % 10)
  {
  }

  lemma PrintIsInjective(m: nat, n: nat)
    requires Print(m) == Print(n)
    ensures m == n
  {
    ParseInvertsPrint(m);
    ParseInvertsPrint(n);
  }

  /** An unsigned 32-bit number prints in at most ten digits. */
  lemma PrintLength(n: nat)
    requires n < TWO32
    ensures |Print(n)| <= 10
  {
    PrintShorter(n, 10_000_000_000, 10);
  }

  lemma {:induction false} PrintShorter(n: nat, bound: nat, digits: nat)
    requires digits > 0 && n < bound
    requires bound == Pow10(digits)
    ensures |Print(n)| <= digits
  {
    if n >= 10 {
      assert digits > 1 by {
        assert Pow10(1) == 10;
      }
      PrintShorter(n / 10, Pow10(digits - 1), digits - 1);
    }
  }

  function Pow10(k: nat): nat {
    if k == 0 then 1 else 10 * Pow10(k - 1)
  }

  function IndexOf(sep: char, s: string): nat {
    if s == [] || s[0] == sep then 0 else 1 + IndexOf(sep, s[1..])
  }

  lemma {:induction false} IndexOfFirst(sep: char, a: string, x: string)
    requires sep !in a
    ensures IndexOf(sep, a + [sep] + x) == |a|
  {
    if a != [] {
      assert (a + [sep] + x)[1..] == a[1..] + [sep] + x;
      IndexOfFirst(sep, a[1..], x);
    }
  }

  /** The first separator splits a text in one way only. */
  lemma SplitIsUnique(sep: char, a: string, x: string, b: string, y: string)
    requires sep !in a && sep !in b
    requires a + [sep] + x == b + [sep] + y
    ensures a == b && x == y
  {
    var s, t := a + [sep] + x, b + [sep] + y;
    IndexOfFirst(sep, a, x);
    IndexOfFirst(sep, b, y);
    assert s[..|a|] == a && t[..|b|] == b;
    assert s[|a| + 1..] == x && t[|b| + 1..] == y;
  }

  lemma PrintIsDigits(n: nat, s: string)
    requires s != [] && !IsDigit(s[0])
    ensures Print(n) != s
  {
    assert Print(n)[0] in Print(n);
  }
}
