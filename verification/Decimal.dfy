/** Decimal numbers as text: what `%s` and f-strings print and what `int` reads.
    Only the ASCII digits are digits here. */
module Decimal {
  import opened Common

  predicate IsDigit(c: char) {
    '0' <= c <= '9'
  }

  predicate AllDigits(s: string) {
    forall i :: 0 <= i < |s| ==> IsDigit(s[i])
  }

  function Value(s: string): nat
    requires AllDigits(s)
  {
    if s == "" then 0 else Value(s[..|s| - 1]) * 10 + (s[|s| - 1] as int - '0' as int)
  }

  function Digits(n: nat): (s: string)
    ensures s != "" && AllDigits(s)
  {
    if n < 10 then [(n + '0' as int) as char] else Digits(n / 10) + [(n % 10 + '0' as int) as char]
  }

  function Print(n: int): string {
    if n < 0 then "-" + Digits(-n) else Digits(n)
  }

  /** An optional minus sign and at least one digit; nothing else is a number. */
  function Parse(s: string): Option<int> {
    if s != "" && s[0] == '-' then
      if |s| > 1 && AllDigits(s[1..]) then Some(-(Value(s[1..]) as int)) else None
    else if s != "" && AllDigits(s) then Some(Value(s) as int)
    else None
  }

  lemma {:induction false} ValueOfDigits(n: nat)
    ensures Value(Digits(n)) == n
  {
    var s := Digits(n);
    if n >= 10 {
      assert s[..|s| - 1] == Digits(n / 10);
      ValueOfDigits(n / 10);
    }
  }

  function Power10(k: nat): nat {
    if k == 0 then 1 else 10 * Power10(k - 1)
  }

  /** Decimal notation: what stands in front counts ten times as much for every digit
      behind it, and the ten digits count zero to nine. */
  lemma {:induction false} ValueOfBoth(a: string, b: string)
    requires AllDigits(a) && AllDigits(b)
    ensures AllDigits(a + b) && Value(a + b) == Value(a) * Power10(|b|) + Value(b)
    decreases |b|
  {
    hide Value;
    if b == "" {
      assert a + b == a;
      NoDigits();
    } else {
      var front, last := b[..|b| - 1], b[|b| - 1];
      assert b == front + [last] && a + b == (a + front) + [last];
      ValueOfBoth(a, front);
      ValueSnoc(front, last);
      ValueSnoc(a + front, last);
      TimesTen(Value(a), Power10(|front|), Value(front));
    }
  }

  lemma NoDigits()
    ensures Value("") == 0
  {
  }

  lemma ValueSnoc(s: string, c: char)
    requires AllDigits(s) && IsDigit(c)
    ensures AllDigits(s + [c]) && Value(s + [c]) == Value(s) * 10 + (c as int - '0' as int)
  {
    assert (s + [c])[..|s|] == s;
  }

  lemma TimesTen(a: nat, p: nat, v: nat)
    ensures (a * p + v) * 10 == a * (10 * p) + v * 10
  {
  }

  lemma ValueOfDigit(d: nat)
    requires d < 10
    ensures AllDigits(["0123456789"[d]]) && Value(["0123456789"[d]]) == d
  {
    assert ["0123456789"[d]][..0] == "";
  }

  /** A number is an optional minus sign and digits, at least one; nothing else is. */
  lemma ParseIff(s: string, n: int)
    ensures Parse(s) == Some(n) <==>
      || (s != "" && AllDigits(s) && n == Value(s))
      || (|s| > 1 && s[0] == '-' && AllDigits(s[1..]) && n == -(Value(s[1..]) as int))
  {
  }

  lemma ParsePrint(n: int)
    ensures Parse(Print(n)) == Some(n)
  {
    ValueOfDigits(if n < 0 then -n else n);
    if n < 0 {
      assert Print(n)[1..] == Digits(-n);
    } else {
      assert IsDigit(Digits(n)[0]);
    }
  }
}
