/** Decimal notation of integers: what str() prints and int() reads back. */
module Decimal {
  predicate IsDigit(ch: char) {
    '0' <= ch <= '9'
  }

  function DigitChar(d: nat): (ch: char)
    requires d < 10
    ensures IsDigit(ch) && DigitValue(ch) == d
  {
    '0' + d as char
  }

  function DigitValue(ch: char): nat
    requires IsDigit(ch)
  {
    (ch as int) - ('0' as int)
  }

  predicate AllDigits(s: string) {
    forall i :: 0 <= i < |s| ==> IsDigit(s[i])
  }

  function Print(n: nat): (s: string)
    ensures |s| > 0 && AllDigits(s)
  {
    if n < 10 then [DigitChar(n)] else Print(n / 10) + [DigitChar(n % 10)]
  }

  function Read(s: string): nat
    requires AllDigits(s)
  {
    if s == [] then 0 else 10 * Read(s[..|s| - 1]) + DigitValue(s[|s| - 1])
  }

  lemma {:induction false} ReadPrint(n: nat)
    ensures Read(Print(n)) == n
  {
    if n >= 10 {
      ReadPrint(n / 10);
      assert Print(n)[..|Print(n)| - 1] == Print(n / 10);
    } else {
      assert Print(n)[..0] == [];
    }
  }

  function Power10(n: nat): nat {
    if n == 0 then 1 else 10 * Power10(n - 1)
  }

  /** What digits are worth at their places, the first one most. */
  function Value(s: string): nat
    requires AllDigits(s)
  {
    if s == [] then 0 else DigitValue(s[0]) * Power10(|s| - 1) + Value(s[1..])
  }

  lemma {:induction false} ValueSnoc(s: string, ch: char)
    requires AllDigits(s) && IsDigit(ch)
    ensures AllDigits(s + [ch]) && Value(s + [ch]) == 10 * Value(s) + DigitValue(ch)
  {
    if s == [] {
      assert ([] + [ch])[1..] == [];
    } else {
      assert (s + [ch])[1..] == s[1..] + [ch];
      ValueSnoc(s[1..], ch);
      TenTimes(DigitValue(s[0]), Power10(|s| - 1), Value(s[1..]));
    }
  }

  lemma TenTimes(d: nat, p: nat, v: nat)
    ensures d * (10 * p) + 10 * v == 10 * (d * p + v)
  {
  }

  /** Reading digit after digit gives each its place. */
  lemma {:induction false} ReadIsValue(s: string)
    requires AllDigits(s)
    ensures Read(s) == Value(s)
    decreases |s|
  {
    if s != [] {
      var front := s[..|s| - 1];
      ReadIsValue(front);
      ValueSnoc(front, s[|s| - 1]);
      assert s == front + [s[|s| - 1]];
    }
  }

  /** Printed numbers have no leading zero. */
  lemma {:induction false} PrintShortest(n: nat)
    ensures Print(n)[0] == '0' <==> n == 0
    ensures n == 0 ==> |Print(n)| == 1
  {
    if n >= 10 {
      PrintShortest(n / 10);
      assert Print(n)[0] == Print(n / 10)[0];
    }
  }

  /** str() of a Python int. */
  function PrintInt(n: int): string {
    if n < 0 then "-" + Print(-n) else Print(n)
  }

  lemma PrintInjective(m: nat, n: nat)
    ensures Print(m) == Print(n) <==> m == n
  {
    ReadPrint(m);
    ReadPrint(n);
  }

  lemma SignShows(n: int)
    ensures |PrintInt(n)| > 0 && (PrintInt(n)[0] == '-' <==> n < 0)
    ensures n < 0 ==> PrintInt(n)[1..] == Print(-n)
  {
    if n >= 0 {
      assert IsDigit(Print(n)[0]);
    }
  }

  lemma PrintIntInjective(m: int, n: int)
    ensures PrintInt(m) == PrintInt(n) <==> m == n
  {
    SignShows(m);
    SignShows(n);
    if m < 0 && n < 0 {
      PrintInjective(-m, -n);
    } else if m >= 0 && n >= 0 {
      PrintInjective(m, n);
    }
  }

  lemma PrintIntChars(n: int)
    ensures ':' !in PrintInt(n) && PrintInt(n) != "none"
  {
    var s := PrintInt(n);
    forall i | 0 <= i < |s| ensures s[i] == '-' || IsDigit(s[i]) {
      if n < 0 && i > 0 {
        assert s[i] == Print(-n)[i - 1];
      }
    }
    assert s[0] != 'n';
  }
}
