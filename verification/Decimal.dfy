/** Decimal printing, as `%d` does it. */
module Decimal {

  function Digit(d: nat): (c: char)
    requires d < 10
    ensures '0' <= c <= '9'
  {
    '0' + d as char
  }

  function Print(n: nat): (s: string)
    ensures |s| > 0 && forall i :: 0 <= i < |s| ==> '0' <= s[i] <= '9'
  {
    if n < 10 then [Digit(n)] else Print(n / 10) + [Digit(n % 10)]
  }

  function PrintInt(n: int): string
  {
    if n < 0 then "-" + Print(-n) else Print(n)
  }

  predicate Digits(s: string)
  {
    forall i :: 0 <= i < |s| ==> '0' <= s[i] <= '9'
  }

  /** The number a string of digits stands for: each character weighs ten times the next. */
  function Value(s: string): nat
    requires Digits(s)
  {
    if s == "" then 0 else 10 * Value(s[..|s| - 1]) + (s[|s| - 1] as int - '0' as int)
  }

  /** The printed number reads back as the number, and has no leading zero. */
  lemma {:induction false} PrintReadsBack(n: nat)
    ensures Digits(Print(n)) && Value(Print(n)) == n
    ensures Print(n)[0] == '0' <==> n == 0
  {
    var s := Print(n);
    if n >= 10 {
      PrintReadsBack(n / 10);
      assert s[..|s| - 1] == Print(n / 10) && s[|s| - 1] == Digit(n % 10);
      assert s[0] == Print(n / 10)[0];
    } else {
      assert s[..0] == "" && Value("") == 0;
    }
  }

  /** The string spells the integer, a negative one behind a minus sign. */
  predicate Spells(s: string, n: int)
  {
    if n < 0 then s != "" && s[0] == '-' && Digits(s[1..]) && Value(s[1..]) == -n
    else Digits(s) && Value(s) == n
  }

  lemma PrintIntReadsBack(n: int)
    ensures Spells(PrintInt(n), n)
  {
    if n < 0 {
      PrintReadsBack(-n);
      assert PrintInt(n)[1..] == Print(-n);
    } else {
      PrintReadsBack(n);
    }
  }

  /** Two numbers that print alike are equal. */
  lemma {:induction false} PrintInjective(a: nat, b: nat)
    requires Print(a) == Print(b)
    ensures a == b
  {
    var s, t := Print(a), Print(b);
    if a < 10 && b < 10 {
      assert s[0] == t[0];
    } else if a >= 10 && b >= 10 {
      assert s[..|s| - 1] == Print(a / 10) && t[..|t| - 1] == Print(b / 10);
      assert s[|s| - 1] == Digit(a % 10) && t[|t| - 1] == Digit(b % 10);
      PrintInjective(a / 10, b / 10);
    }
  }

  /** Behind a fixed non-digit, the printed number is recovered from the end of the string. */
  lemma SuffixInjective(p: string, a: nat, q: string, b: nat)
    requires p + "-" + Print(a) == q + "-" + Print(b)
    ensures a == b
  {
    var s := p + "-" + Print(a);
    var t := q + "-" + Print(b);
    assert s[|p|] == '-' && t[|q|] == '-';
    assert s[|p| + 1..] == Print(a) && t[|q| + 1..] == Print(b);
    assert |p| == |q|;
    PrintInjective(a, b);
  }
}
