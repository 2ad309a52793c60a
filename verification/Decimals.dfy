/** Decimal numerals, written and read. */
module Decimals {
  import opened Wrappers

  function Digit(n: nat): (c: char)
    requires n < 10
    ensures '0' <= c <= '9'
  {
    '0' + n as char
  }

  predicate IsDigit(c: char) {
    '0' <= c <= '9'
  }

  predicate AllDigits(s: string) {
    forall i :: 0 <= i < |s| ==> IsDigit(s[i])
  }

  function DigitValue(c: char): (n: nat)
    requires IsDigit(c)
    ensures n < 10 && Digit(n) == c
  {
    (c as int) - ('0' as int)
  }

  /** How many digits a text starts with. */
  function DigitRun(s: string): (n: nat)
    ensures n <= |s| && AllDigits(s[..n]) && (n < |s| ==> !IsDigit(s[n]))
  {
    if s == [] || !IsDigit(s[0]) then 0
    else
      var n := DigitRun(s[1..]);
      assert s[..n + 1] == [s[0]] + s[1..][..n];
      n + 1
  }

  /** A run of digits ends where something else begins. */
  lemma {:induction false} RunEnds(digits: string, rest: string)
    requires AllDigits(digits) && (rest == [] || !IsDigit(rest[0]))
    ensures DigitRun(digits + rest) == |digits|
  {
    if digits == [] {
      assert digits + rest == rest;
    } else {
      assert (digits + rest)[1..] == digits[1..] + rest;
      RunEnds(digits[1..], rest);
    }
  }

  /** The shortest numeral of a number. */
  function Decimal(n: nat): (s: string)
    ensures |s| >= 1 && AllDigits(s)
  {
    if n < 10 then [Digit(n)] else Decimal(n / 10) + [Digit(n % 10)]
  }

  /** The number a string of digits names. */
  function Number(s: string): nat
    requires AllDigits(s)
  {
    if s == [] then 0 else 10 * Number(s[..|s| - 1]) + DigitValue(s[|s| - 1])
  }

  lemma {:induction false} NumberOfDecimal(n: nat)
    ensures Number(Decimal(n)) == n
  {
    if n >= 10 {
      NumberOfDecimal(n / 10);
      var s := Decimal(n);
      assert s[..|s| - 1] == Decimal(n / 10);
    }
  }

  lemma DecimalInjective(a: nat, b: nat)
    requires Decimal(a) == Decimal(b)
    ensures a == b
  {
    NumberOfDecimal(a);
    NumberOfDecimal(b);
  }

  /** Zeros in front, up to a width; a longer numeral is left as it is. */
  function Padded(n: nat, width: nat): string {
    Zeros(width - |Decimal(n)|) + Decimal(n)
  }

  function Zeros(n: int): (s: string)
    ensures |s| == (if n > 0 then n else 0) && forall i :: 0 <= i < |s| ==> s[i] == '0'
  {
    if n <= 0 then [] else ['0'] + Zeros(n - 1)
  }

  /** Reading a signed 64-bit number, as the source's standard library does: an optional sign, then digits.
      Only short texts are read here, so the range is never left. */
  function ReadInt(s: string): Option<int> {
    var negative := s != [] && s[0] == '-';
    var body := if s != [] && (s[0] == '-' || s[0] == '+') then s[1..] else s;
    if body == [] || !AllDigits(body) then None
    else
      var n: int := Number(body);
      Some(if negative then -n else n)
  }

  function Two(n: nat): (s: string)
    requires n < 100
    ensures |s| == 2 && AllDigits(s)
  {
    [Digit(n / 10), Digit(n % 10)]
  }

  function Four(n: nat): (s: string)
    requires n < 10000
    ensures |s| == 4 && AllDigits(s)
  {
    [Digit(n / 1000), Digit(n / 100 % 10), Digit(n / 10 % 10), Digit(n % 10)]
  }

  lemma NumberAppend(s: string, c: char)
    requires AllDigits(s) && IsDigit(c)
    ensures AllDigits(s + [c]) && Number(s + [c]) == 10 * Number(s) + DigitValue(c)
  {
    assert (s + [c])[..|s|] == s;
  }

  lemma ReadTwo(n: nat)
    requires n < 100
    ensures ReadInt(Two(n)) == Some(n)
  {
    NumberAppend([], Digit(n / 10));
    NumberAppend([Digit(n / 10)], Digit(n % 10));
    assert [] + [Digit(n / 10)] == [Digit(n / 10)];
    assert [Digit(n / 10)] + [Digit(n % 10)] == Two(n);
  }

  lemma NumberOfFour(n: nat)
    requires n < 10000
    ensures Number(Four(n)) == n
  {
    NumberOfDigits(n / 1000, n / 100 % 10, n / 10 % 10, n % 10, Four(n));
    Places(n);
  }

  lemma NumberOfDigits(a: nat, b: nat, c: nat, d: nat, s: string)
    requires a < 10 && b < 10 && c < 10 && d < 10 && s == [Digit(a), Digit(b), Digit(c), Digit(d)]
    ensures AllDigits(s) && Number(s) == 1000 * a + 100 * b + 10 * c + d
  {
    NumberAppend([], Digit(a));
    assert [] + [Digit(a)] == [Digit(a)];
    NumberAppend([Digit(a)], Digit(b));
    NumberAppend([Digit(a)] + [Digit(b)], Digit(c));
    NumberAppend([Digit(a)] + [Digit(b)] + [Digit(c)], Digit(d));
    assert [Digit(a)] + [Digit(b)] + [Digit(c)] + [Digit(d)] == s;
  }

  lemma Places(n: nat)
    requires n < 10000
    ensures n == 1000 * (n / 1000) + 100 * (n / 100 % 10) + 10 * (n / 10 % 10) + n % 10
  {
    Hundreds(n);
    Hundreds(n / 10);
    Thousands(n);
  }

  lemma Hundreds(n: nat)
    ensures n / 10 / 10 == n / 100 && n / 10 == 10 * (n / 100) + n / 10 % 10
  {
  }

  lemma Thousands(n: nat)
    ensures n / 10 / 100 == n / 1000
  {
  }

  lemma ReadFour(n: nat)
    requires n < 10000
    ensures ReadInt(Four(n)) == Some(n)
  {
    NumberOfFour(n);
  }

  lemma PaddedTwo(n: nat)
    requires n < 100
    ensures Padded(n, 2) == Two(n)
  {
    if n >= 10 {
      assert Decimal(n) == [Digit(n / 10)] + [Digit(n % 10)];
    } else {
      assert Zeros(1) == ['0'] + Zeros(0);
    }
  }

  /** Equal-length digit strings naming the same number are the same. */
  lemma {:induction false} NumberInjective(s: string, t: string)
    requires AllDigits(s) && AllDigits(t) && |s| == |t| && Number(s) == Number(t)
    ensures s == t
  {
    if s != [] {
      var n := |s| - 1;
      NumberInjective(s[..n], t[..n]);
      assert s == s[..n] + [s[n]] && t == t[..n] + [t[n]];
    }
  }

  lemma {:induction false} NumberOfPadded(zeros: string, s: string)
    requires AllDigits(s) && forall i :: 0 <= i < |zeros| ==> zeros[i] == '0'
    ensures AllDigits(zeros + s) && Number(zeros + s) == Number(s)
  {
    if s == [] {
      NumberOfZeros(zeros);
      assert zeros + s == zeros;
    } else {
      var n := |s| - 1;
      NumberOfPadded(zeros, s[..n]);
      assert (zeros + s)[..|zeros + s| - 1] == zeros + s[..n];
    }
  }

  lemma {:induction false} NumberOfZeros(zeros: string)
    requires forall i :: 0 <= i < |zeros| ==> zeros[i] == '0'
    ensures Number(zeros) == 0
  {
    if zeros != [] {
      NumberOfZeros(zeros[..|zeros| - 1]);
    }
  }

  function Pow10(n: nat): nat {
    if n == 0 then 1 else 10 * Pow10(n - 1)
  }

  /** A number has at most `w` digits exactly when it is below ten to the `w`. */
  lemma {:induction false} DecimalWidth(n: nat, w: nat)
    requires w >= 1
    ensures |Decimal(n)| <= w <==> n < Pow10(w)
  {
    if n >= 10 {
      if w >= 2 {
        DecimalWidth(n / 10, w - 1);
      }
    } else {
      TenAtLeast(w);
    }
  }

  lemma {:induction false} TenAtLeast(w: nat)
    requires w >= 1
    ensures Pow10(w) >= 10
  {
    if w > 1 {
      TenAtLeast(w - 1);
    }
  }

  lemma PaddedFour(n: nat)
    requires n < 10000
    ensures Padded(n, 4) == Four(n)
  {
    assert Pow10(1) == 10 && Pow10(2) == 100 && Pow10(3) == 1000 && Pow10(4) == 10000;
    DecimalWidth(n, 4);
    NumberOfPadded(Zeros(4 - |Decimal(n)|), Decimal(n));
    NumberOfDecimal(n);
    NumberOfFour(n);
    NumberInjective(Padded(n, 4), Four(n));
  }
}
