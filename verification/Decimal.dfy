/** Decimal numbers as text: printing, `padStart`, and reading back. */
module Decimal {
  import opened Text
  import opened Wrappers

  function Digit(d: int): char
    requires 0 <= d <= 9
  {
    "0123456789"[d]
  }

  predicate IsDigit(c: char) { '0' <= c <= '9' }

  function DigitValue(c: char): int
    requires IsDigit(c)
  {
    c as int - '0' as int
  }

  lemma DigitProperties(d: int)
    requires 0 <= d <= 9
    ensures IsDigit(Digit(d)) && DigitValue(Digit(d)) == d
  {}

  function Digits(n: nat): (s: string)
    ensures s != []
  {
    if n < 10 then [Digit(n)] else Digits(n / 10) + [Digit(n % 10)]
  }

  /** `String(n)`. */
  function Print(n: int): string { if n < 0 then "-" + Digits(-n) else Digits(n) }

  /** `String(n).padStart(2, "0")`. */
  function Pad(n: int): string { if |Print(n)| < 2 then "0" + Print(n) else Print(n) }

  predicate AllDigits(s: string) { forall i :: 0 <= i < |s| ==> IsDigit(s[i]) }

  function ReadDigits(s: string): int
    requires AllDigits(s)
  {
    if s == [] then 0 else ReadDigits(s[..|s| - 1]) * 10 + DigitValue(s[|s| - 1])
  }

  /** `Number` on decimal integers and the empty text, which is 0; anything else is not a number here. */
  function Read(s: string): Option<int> {
    if s == [] then Some(0)
    else if s[0] == '-' then
      if s[1..] != [] && AllDigits(s[1..]) then Some(-ReadDigits(s[1..])) else None
    else if AllDigits(s) then Some(ReadDigits(s))
    else None
  }

  lemma {:induction false} ReadsBackDigits(n: nat)
    ensures AllDigits(Digits(n)) && ReadDigits(Digits(n)) == n
  {
    if n < 10 {
      DigitProperties(n);
      assert Digits(n)[..0] == [];
    } else {
      ReadsBackDigits(n / 10);
      DigitProperties(n % 10);
      var s := Digits(n);
      assert s[..|s| - 1] == Digits(n / 10) && s[|s| - 1] == Digit(n % 10);
    }
  }

  lemma {:induction false} ReadLeadingZero(s: string)
    requires AllDigits(s)
    ensures AllDigits("0" + s) && ReadDigits("0" + s) == ReadDigits(s)
  {
    var z := "0" + s;
    forall i | 0 <= i < |z| ensures IsDigit(z[i]) { assert i > 0 ==> z[i] == s[i - 1]; }
    if s == [] {
      assert z[..0] == [];
    } else {
      ReadLeadingZero(s[..|s| - 1]);
      assert z[..|z| - 1] == "0" + s[..|s| - 1];
    }
  }

  /** Reading what was printed, padded or not, gives the number back. */
  lemma ReadsBack(n: int)
    ensures Read(Print(n)) == Some(n) && Read(Pad(n)) == Some(n)
  {
    var m := if n < 0 then -n else n;
    ReadsBackDigits(m);
    if n >= 0 {
      ReadLeadingZero(Digits(m));
      assert IsDigit(Digits(m)[0]);
    } else {
      assert Print(n)[1..] == Digits(m);
    }
  }

  lemma {:induction false} LexConcat(a: string, b: string, x: string, y: string)
    requires |a| == |b|
    ensures LexLe(a + x, b + y) <==> if a == b then LexLe(x, y) else LexLe(a, b)
  {
    if a == [] {
      assert a + x == x && b + y == y;
    } else {
      LexConcat(a[1..], b[1..], x, y);
      assert (a + x)[1..] == a[1..] + x && (b + y)[1..] == b[1..] + y;
      assert a == [a[0]] + a[1..] && b == [b[0]] + b[1..];
    }
  }

  /** Numbers with equally many digits sort as text the way they sort as numbers. */
  lemma {:induction false} DigitsOrder(m: nat, n: nat)
    requires |Digits(m)| == |Digits(n)|
    ensures LexLe(Digits(m), Digits(n)) <==> m <= n
    ensures Digits(m) == Digits(n) <==> m == n
  {
    ReadsBackDigits(m);
    ReadsBackDigits(n);
    if m >= 10 && n >= 10 {
      DigitsOrder(m / 10, n / 10);
      LexConcat(Digits(m / 10), Digits(n / 10), [Digit(m % 10)], [Digit(n % 10)]);
      ReadsBackDigits(m / 10);
      ReadsBackDigits(n / 10);
      DigitOrder(m % 10, n % 10);
    } else {
      DigitOrder(m % 10, n % 10);
    }
  }

  lemma DigitOrder(m: int, n: int)
    requires 0 <= m <= 9 && 0 <= n <= 9
    ensures LexLe([Digit(m)], [Digit(n)]) <==> m <= n
  {
    var a, b := [Digit(m)], [Digit(n)];
    assert a[1..] == [] && b[1..] == [];
  }

  lemma TwoDigitPad(n: int)
    requires 0 <= n <= 99
    ensures Pad(n) == [Digit(n / 10), Digit(n % 10)]
  {
    if n >= 10 { assert Digits(n / 10) == [Digit(n / 10)]; }
  }

  /** Padded numbers below a hundred sort as numbers. */
  lemma PadOrder(m: int, n: int)
    requires 0 <= m <= 99 && 0 <= n <= 99
    ensures LexLe(Pad(m), Pad(n)) <==> m <= n
  {
    TwoDigitPad(m);
    TwoDigitPad(n);
    LexConcat([Digit(m / 10)], [Digit(n / 10)], [Digit(m % 10)], [Digit(n % 10)]);
    assert Pad(m) == [Digit(m / 10)] + [Digit(m % 10)] && Pad(n) == [Digit(n / 10)] + [Digit(n % 10)];
    DigitOrder(m / 10, n / 10);
    DigitOrder(m % 10, n % 10);
    DigitProperties(m / 10);
    DigitProperties(n / 10);
  }
}
