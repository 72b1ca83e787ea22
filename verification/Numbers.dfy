/** Decimal numbers as printf writes them. */
module Numbers {
  import opened CStrings

  predicate IsDigit(c: char) {
    '0' <= c <= '9'
  }

  predicate AllDigits(s: string) {
    forall i :: 0 <= i < |s| ==> IsDigit(s[i])
  }

  function DigitOf(d: nat): char
    requires d < 10
  {
    '0' + d as char
  }

  /** %d of a natural number. */
  function Decimal(n: nat): (s: string)
    ensures s != "" && AllDigits(s)
  {
    if n < 10 then [DigitOf(n)] else Decimal(n / 10) + [DigitOf(n % 10)]
  }

  /** %d */
  function Printed(n: int): string {
    if n < 0 then "-" + Decimal(-n) else Decimal(n)
  }

  function DigitsValue(s: string): nat
    requires AllDigits(s)
  {
    if s == "" then 0 else 10 * DigitsValue(s[..|s| - 1]) + (s[|s| - 1] - '0') as nat
  }

  function Value(s: string): Option<int> {
    if s != "" && AllDigits(s) then Some(DigitsValue(s))
    else if |s| > 1 && s[0] == '-' && AllDigits(s[1..]) then (var v: int := DigitsValue(s[1..]); Some(-v))
    else None
  }

  lemma {:induction false} DecimalValue(n: nat)
    ensures DigitsValue(Decimal(n)) == n
  {
    if n < 10 {
      assert Decimal(n)[..0] == "";
    } else {
      DecimalValue(n / 10);
      assert Decimal(n)[..|Decimal(n)| - 1] == Decimal(n / 10);
    }
  }

  /** Reading a printed number gives the number back. */
  lemma PrintedValue(n: int)
    ensures Value(Printed(n)) == Some(n)
  {
    if n < 0 {
      DecimalValue(-n);
      assert Printed(n)[1..] == Decimal(-n);
      assert !IsDigit(Printed(n)[0]);
    } else {
      DecimalValue(n);
    }
  }

  /** %.2d of a natural number. */
  function Padded(n: nat): (s: string)
    ensures s != "" && AllDigits(s)
  {
    if n < 10 then "0" + Decimal(n) else Decimal(n)
  }

  lemma PaddedValue(n: nat)
    ensures DigitsValue(Padded(n)) == n
  {
    DecimalValue(n);
    if n < 10 {
      assert Padded(n)[..1] == "0" && "0"[..0] == "";
      assert Padded(n) == ['0', DigitOf(n)];
    }
  }

  /** A decimal has no needless zero in front: so it is the one text of digits for its value. */
  lemma {:induction false} DecimalShape(n: nat)
    ensures (|Decimal(n)| == 1 <==> n < 10) && (Decimal(n)[0] == '0' <==> n == 0)
  {
    if n < 10 {
    } else {
      DecimalShape(n / 10);
    }
  }

  /** Two digits at least, and a zero in front only if it takes one to get there. */
  lemma PaddedShape(n: nat)
    ensures |Padded(n)| >= 2 && (Padded(n)[0] == '0' <==> n < 10) && (|Padded(n)| == 2 <==> n < 100)
  {
    DecimalShape(n);
    if n >= 10 {
      DecimalShape(n / 10);
    }
  }

  /** A number and the first thing after it that is no digit can be told apart again. */
  lemma PaddedPrefix(i: nat, j: nat, x: string, y: string)
    requires x != "" && y != "" && !IsDigit(x[0]) && !IsDigit(y[0])
    requires Padded(i) + x == Padded(j) + y
    ensures i == j
  {
    var a, b := Padded(i), Padded(j);
    NoShorterPrefix(a, b, x, y);
    NoShorterPrefix(b, a, y, x);
    assert (a + x)[..|a|] == a && (b + y)[..|b|] == b;
    PaddedValue(i);
    PaddedValue(j);
  }

  lemma NoShorterPrefix(a: string, b: string, x: string, y: string)
    requires x != "" && !IsDigit(x[0]) && AllDigits(b) && a + x == b + y
    ensures |a| >= |b|
  {
    assert (a + x)[|a|] == x[0];
  }
}
