/** Printing and reading decimal numbers, as `%d` and `atoi` do.  A character
    stands for one byte. */
module Decimal {

  predicate IsDigit(c: char) {
    '0' <= c <= '9'
  }

  predicate IsSpace(c: char) {
    c == ' ' || '\t' <= c <= '\r'
  }

  function DigitChar(d: nat): (c: char)
    requires d < 10
    ensures IsDigit(c) && DigitValue(c) == d
  {
    ('0' as int + d) as char
  }

  function DigitValue(c: char): (d: nat)
    requires IsDigit(c)
    ensures d < 10
  {
    c as int - '0' as int
  }

  function Dec(n: nat): (s: string)
    ensures |s| > 0 && AllDigits(s)
  {
    if n < 10 then [DigitChar(n)] else Dec(n / 10) + [DigitChar(n % 10)]
  }

  predicate AllDigits(s: string) {
    forall i :: 0 <= i < |s| ==> IsDigit(s[i])
  }

  /** How many digits s starts with. */
  function Run(s: string): (n: nat)
    ensures n <= |s| && AllDigits(s[..n]) && (n == |s| || !IsDigit(s[n]))
  {
    if s == [] || !IsDigit(s[0]) then 0 else 1 + Run(s[1..])
  }

  function Value(s: string): nat
    requires AllDigits(s)
  {
    if s == [] then 0 else Value(s[..|s| - 1]) * 10 + DigitValue(s[|s| - 1])
  }

  function Blanks(s: string): (n: nat)
    ensures n <= |s|
  {
    if s == [] || !IsSpace(s[0]) then 0 else 1 + Blanks(s[1..])
  }

  /** `atoi`, without a bound on the result. */
  function Atoi(s: string): int {
    var t := s[Blanks(s)..];
    if t != [] && t[0] == '-' then 0 - Value(t[1..][..Run(t[1..])])
    else if t != [] && t[0] == '+' then Value(t[1..][..Run(t[1..])])
    else Value(t[..Run(t)])
  }

  lemma {:induction false} RunOfDigits(s: string, rest: string)
    requires AllDigits(s) && (rest == [] || !IsDigit(rest[0]))
    ensures Run(s + rest) == |s|
  {
    if s == [] {
      assert s + rest == rest;
    } else {
      assert (s + rest)[1..] == s[1..] + rest;
      RunOfDigits(s[1..], rest);
    }
  }

  lemma {:induction false} ValueOfDec(n: nat)
    ensures Value(Dec(n)) == n
  {
    if n >= 10 {
      ValueOfDec(n / 10);
      assert Dec(n)[..|Dec(n)| - 1] == Dec(n / 10);
    }
  }

  /** Reading stops at the first character that is not a digit. */
  lemma AtoiOfDec(n: nat, rest: string)
    requires rest == [] || !IsDigit(rest[0])
    ensures Atoi(Dec(n) + rest) == n
  {
    var s := Dec(n) + rest;
    assert s[0] == Dec(n)[0];
    RunOfDigits(Dec(n), rest);
    assert s[..|Dec(n)|] == Dec(n);
    ValueOfDec(n);
    assert s[0..] == s;
  }

  lemma DecInjective(m: nat, n: nat)
    requires Dec(m) == Dec(n)
    ensures m == n
  {
    ValueOfDec(m);
    ValueOfDec(n);
  }

  /** Two numbers, each ended by a character that is no digit, are read apart. */
  lemma DecPrefix(m: nat, n: nat, a: string, b: string)
    requires (a == [] || !IsDigit(a[0])) && (b == [] || !IsDigit(b[0]))
    requires Dec(m) + a == Dec(n) + b
    ensures m == n && a == b
  {
    RunOfDigits(Dec(m), a);
    RunOfDigits(Dec(n), b);
    var s := Dec(m) + a;
    assert s[..|Dec(m)|] == Dec(m) && s[..|Dec(n)|] == Dec(n);
    assert s[|Dec(m)|..] == a && s[|Dec(n)|..] == b;
    DecInjective(m, n);
  }

  lemma {:induction false} DecHasNo(n: nat, c: char)
    requires !IsDigit(c)
    ensures c !in Dec(n)
  {
  }

  lemma {:induction false} DecLeading(n: nat)
    requires n > 0
    ensures Dec(n)[0] != '0'
  {
    if n >= 10 { DecLeading(n / 10); }
  }

  function Pow10(k: nat): nat {
    if k == 0 then 1 else 10 * Pow10(k - 1)
  }

  lemma {:induction false} DecLength(n: nat, k: nat)
    requires n < Pow10(k) && k > 0
    ensures |Dec(n)| <= k
  {
    if n >= 10 {
      assert k > 1;
      DecLength(n / 10, k - 1);
    }
  }
}
