/**
 Line numbers as text: what to_string prints and what stoi reads back.
 */
module Decimal {

  predicate IsDigit(c: char) {
    '0' <= c <= '9'
  }

  predicate AllDigits(s: string) {
    forall i :: 0 <= i < |s| ==> IsDigit(s[i])
  }

  function DigitChar(d: nat): (c: char)
    requires d < 10
    ensures IsDigit(c)
  {
    '0' + d as char
  }

  function DigitValue(c: char): (d: nat)
    requires IsDigit(c)
    ensures d < 10
  {
    (c as int) - ('0' as int)
  }

  // to_string of a non-negative int
  function Print(n: nat): (s: string)
    ensures s != "" && AllDigits(s)
  {
    if n < 10 then [DigitChar(n)] else Print(n / 10) + [DigitChar(n % 10)]
  }

  // stoi of a string of digits
  function Parse(s: string): nat
    requires AllDigits(s)
  {
    if s == "" then 0 else 10 * Parse(s[..|s| - 1]) + DigitValue(s[|s| - 1])
  }

  // the digit of a number below ten
  lemma PrintDigit(d: nat)
    requires d < 10
    ensures Print(d) == ["0123456789"[d]]
  {
    assert forall k: nat :: k < 10 ==> "0123456789"[k] as int == '0' as int + k;
  }

  function Pow10(k: nat): nat {
    if k == 0 then 1 else 10 * Pow10(k - 1)
  }

  // the value of a text by position: each digit times the power of ten of its place
  function ByPosition(s: string): int {
    if s == "" then 0 else (s[0] as int - '0' as int) * Pow10(|s| - 1) + ByPosition(s[1..])
  }

  lemma {:induction false} ParseByPosition(s: string)
    requires AllDigits(s)
    ensures Parse(s) == ByPosition(s)
    decreases |s|
  {
    if s != "" {
      LastPosition(s);
      ParseByPosition(s[..|s| - 1]);
    }
  }

  lemma {:induction false} LastPosition(s: string)
    requires s != ""
    ensures ByPosition(s) == 10 * ByPosition(s[..|s| - 1]) + (s[|s| - 1] as int - '0' as int)
    decreases |s|
  {
    if |s| == 1 {
      assert s[1..] == "" && s[..0] == "";
    } else {
      LastPosition(s[1..]);
      assert s[1..][..|s| - 2] == s[..|s| - 1][1..];
      TimesTen(s[0] as int - '0' as int, Pow10(|s| - 2));
    }
  }

  lemma TimesTen(d: int, p: int)
    ensures d * (10 * p) == 10 * (d * p)
  {
  }

  lemma {:induction false} ParsePrint(n: nat)
    ensures Parse(Print(n)) == n
  {
    if n < 10 {
      assert Print(n)[..0] == "";
    } else {
      ParsePrint(n / 10);
      assert Print(n)[..|Print(n)| - 1] == Print(n / 10);
    }
  }

  // no leading zero, except for zero itself
  predicate Canonical(s: string) {
    s != "" && AllDigits(s) && (|s| > 1 ==> s[0] != '0')
  }

  lemma {:induction false} ParsePositive(s: string)
    requires Canonical(s) && s[0] != '0'
    ensures Parse(s) > 0
  {
    if |s| > 1 {
      ParsePositive(s[..|s| - 1]);
    } else {
      assert s[..0] == "";
    }
  }

  // Printing what was read gives the same text back exactly when it had no leading zeros.
  lemma {:induction false} PrintParseIff(s: string)
    requires s != "" && AllDigits(s)
    ensures Print(Parse(s)) == s <==> Canonical(s)
    decreases |s|
  {
    PrintCanonical(Parse(s));
    if Canonical(s) {
      var init, last := s[..|s| - 1], s[|s| - 1];
      if |s| == 1 {
        assert init == "";
        assert s == [last];
      } else {
        ParsePositive(init);
        PrintParseIff(init);
        assert Parse(s) / 10 == Parse(init) && Parse(s) % 10 == DigitValue(last);
        assert s == init + [last];
      }
    }
  }

  lemma {:induction false} PrintCanonical(n: nat)
    ensures Canonical(Print(n)) && (n > 0 ==> Print(n)[0] != '0')
  {
    if n >= 10 {
      PrintCanonical(n / 10);
      assert Print(n)[0] == Print(n / 10)[0];
    }
  }
}
