/** Decimal text: what printf's %d / %u writes for a natural number, and reading it back. */
module Decimal {

  predicate IsDigit(c: char) {
    '0' <= c <= '9'
  }

  predicate AllDigits(s: seq<char>) {
    forall i :: 0 <= i < |s| ==> IsDigit(s[i])
  }

  function DigitOf(n: nat): (c: char)
    requires n < 10
    ensures IsDigit(c) && ValueOf(c) == n
  {
    ('0' as int + n) as char
  }

  function ValueOf(c: char): (n: nat)
    requires IsDigit(c)
    ensures n < 10
  {
    c as int - '0' as int
  }

  function Print(n: nat): (s: string)
    ensures |s| > 0 && AllDigits(s)
  {
    if n < 10 then [DigitOf(n)] else Print(n / 10) + [DigitOf(n % 10)]
  }

  /** What %d prints. */
  function PrintInt(n: int): (s: string)
    ensures |s| > 0
  {
    if n < 0 then "-" + Print(-n) else Print(n)
  }

  /** The number a string of digits denotes. */
  function Value(s: seq<char>): nat
    requires AllDigits(s)
  {
    if s == [] then 0 else 10 * Value(s[..|s| - 1]) + ValueOf(s[|s| - 1])
  }

  /** Reading back what was printed gives the number printed. */
  lemma {:induction false} ValuePrint(n: nat)
    ensures Value(Print(n)) == n
  {
    if n < 10 {
      assert [DigitOf(n)][..0] == [];
    } else {
      var s := Print(n / 10) + [DigitOf(n % 10)];
      assert s[..|s| - 1] == Print(n / 10);
      ValuePrint(n / 10);
    }
  }

  /** A number below 10^k prints in at most k digits. */
  lemma {:induction false} PrintLength(n: nat, k: nat)
    requires k > 0 && n < Pow10(k)
    ensures |Print(n)| <= k
  {
    if n >= 10 {
      PrintLength(n / 10, k - 1);
    }
  }

  function Pow10(k: nat): nat {
    if k == 0 then 1 else 10 * Pow10(k - 1)
  }

  lemma {:induction false} ValueMonotone(s: seq<char>, k: nat)
    requires AllDigits(s) && k <= |s|
    ensures Value(s[..k]) <= Value(s)
  {
    if k < |s| {
      ValueMonotone(s[..|s| - 1], k);
      assert s[..|s| - 1][..k] == s[..k];
    } else {
      assert s[..k] == s;
    }
  }
}
