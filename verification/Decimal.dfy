// Decimal numerals of 64-bit integers: printing into a fixed buffer, and parsing.
module Decimals {

  const MaxInt64: int := 0x7FFF_FFFF_FFFF_FFFF
  const MinInt64: int := -0x8000_0000_0000_0000

  type Int64 = x: int | MinInt64 <= x <= MaxInt64

  function DigitChar(d: nat): char
    requires d < 10
  {
    (48 + d) as char
  }

  predicate IsDigit(c: char) {
    48 <= c as int <= 57
  }

  function DigitValue(c: char): nat
    requires IsDigit(c)
  {
    c as int - 48
  }

  // The digits of a natural number, without leading zeros.
  function Digits(n: nat): (r: string)
    ensures |r| >= 1 && forall i :: 0 <= i < |r| ==> IsDigit(r[i])
  {
    if n < 10 then [DigitChar(n)] else Digits(n / 10) + [DigitChar(n % 10)]
  }

  // What %d prints.
  function Decimal(n: int): string {
    if n < 0 then "-" + Digits(-n) else Digits(n)
  }

  predicate AllDigits(s: string) {
    s != "" && forall i :: 0 <= i < |s| ==> IsDigit(s[i])
  }

  function ValueOf(s: string): nat
    requires forall i :: 0 <= i < |s| ==> IsDigit(s[i])
  {
    if s == "" then 0 else ValueOf(s[..|s| - 1]) * 10 + DigitValue(s[|s| - 1])
  }

  function Clamp(n: int): Int64 {
    if n > MaxInt64 then MaxInt64 as Int64 else if n < MinInt64 then MinInt64 as Int64 else n
  }

  function Signed(negative: bool, magnitude: int): int {
    if negative then -magnitude else magnitude
  }

  // The number that ParseInt(s, 10, 64) returns when its error is ignored: zero for a numeral that is
  // not one, the nearest representable number for one out of range.
  function ParsedValue(s: string): Int64 {
    if AllDigits(s) then Clamp(ValueOf(s))
    else if s != "" && (s[0] == '-' || s[0] == '+') && AllDigits(s[1..]) then
      Clamp(Signed(s[0] == '-', ValueOf(s[1..])))
    else 0
  }

  lemma {:induction false} ValueOfDigits(n: nat)
    ensures ValueOf(Digits(n)) == n
  {
    var s := Digits(n);
    assert DigitValue(DigitChar(n % 10)) == n % 10;
    if n < 10 {
      assert s[..0] == "";
    } else {
      ValueOfDigits(n / 10);
      assert s[..|s| - 1] == Digits(n / 10);
    }
  }

  lemma SignedNumeral(digits: string, n: int)
    requires AllDigits(digits) && ValueOf(digits) == n
    ensures ParsedValue("-" + digits) == Clamp(-n)
  {
    var s := "-" + digits;
    assert s[1..] == digits && s[0] == '-';
    assert !IsDigit(s[0]);
    hide ValueOf;
  }

  // Parsing what was printed gives the number back.
  lemma ParseDecimal(n: Int64)
    ensures ParsedValue(Decimal(n)) == n
  {
    var m: int := n;
    if m < 0 {
      ValueOfDigits(-m);
      SignedNumeral(Digits(-m), -m);
    } else {
      ValueOfDigits(m);
    }
  }

  // Only zero has a leading zero.
  lemma {:induction false} NoLeadingZero(n: nat)
    ensures Digits(n)[0] == '0' <==> n == 0
  {
    if n >= 10 {
      NoLeadingZero(n / 10);
    } else {
      assert DigitValue(DigitChar(n)) == n;
    }
  }

  function Pow10(k: nat): nat {
    if k == 0 then 1 else 10 * Pow10(k - 1)
  }

  lemma Pow10Nineteen()
    ensures Pow10(19) == 10_000_000_000_000_000_000
  {
    assert Pow10(5) == 100_000;
    assert Pow10(10) == 100_000 * Pow10(5);
    assert Pow10(15) == 100_000 * Pow10(10);
    assert Pow10(19) == 10_000 * Pow10(15);
  }

  // No number of 64 bits has more than nineteen digits, which leaves one place for the sign.
  lemma FitsBuffer(n: Int64)
    ensures n < Pow10(19)
  {
    Pow10Nineteen();
  }

  // The digits that are still to be written.
  function Front(n: int): string {
    if n > 0 then Digits(n) else ""
  }

  lemma Regroup(front: string, c: char, tail: string)
    ensures front + [c] + tail == front + ([c] + tail)
  {
  }

  lemma NoDigits(n: int)
    ensures Pow10(0) == 1 && Front(0) == "" && (n > 0 ==> Front(n) == Digits(n))
  {
  }

  lemma OneDigit(n: nat, k: nat)
    requires 0 < n < Pow10(k)
    ensures k >= 1 && n / 10 < Pow10(k - 1)
    ensures Front(n) == Front(n / 10) + [DigitChar(n % 10)]
  {
  }

  // Two's complement negation: the smallest number is its own negative.
  function Negate(n: Int64): Int64 {
    if n == MinInt64 then MinInt64 else -n
  }

  // The loop of Int64ToString: writes the digits backwards from the end of the buffer, which always
  // suffices, and writes none for a number that is not positive.
  method WriteDigits(buf: array<char>, number: Int64) returns (i: nat)
    requires buf.Length == 20
    modifies buf
    ensures 1 <= i <= 20
    ensures if number <= 0 then i == 20 else buf[i..] == Digits(number)
  {
    var n: Int64 := number;
    i := 20;
    ghost var tail := "";
    FitsBuffer(number);
    NoDigits(number);
    hide Pow10, Digits, DigitChar, Front;
    while n > 0
      invariant 1 <= i <= 20 && n < Pow10(i - 1)
      invariant if number <= 0 then n == number && i == 20 else n >= 0
      invariant buf[i..] == tail && (number > 0 ==> Front(number) == Front(n) + tail)
    {
      OneDigit(n, i - 1);
      Regroup(Front(n / 10), DigitChar(n % 10), tail);
      i := i - 1;
      WriteAt(buf, i, DigitChar(n % 10));
      tail := [DigitChar(n % 10)] + tail;
      n := n / 10;
    }
  }

  method WriteAt(buf: array<char>, i: nat, c: char)
    requires i < buf.Length
    modifies buf
    ensures buf[i..] == [c] + old(buf[i + 1..])
  {
    buf[i] := c;
  }

  // Int64ToString. For the smallest number, whose negation stays negative, no digit is written.
  method Int64ToString(number: Int64) returns (s: string)
    ensures s == if number == MinInt64 then "-" else Decimal(number)
  {
    if number == 0 {
      return "0";
    }
    var n: Int64 := number;
    var negative := n < 0;
    if negative {
      n := Negate(n);
    }
    var buf := new char[20];
    var i := WriteDigits(buf, n);
    if negative {
      i := i - 1;
      buf[i] := '-';
    }
    return buf[i..];
  }

  // So the printed string parses back for every number but the smallest.
  lemma PrintedParsesIff(n: Int64, s: string)
    requires s == if n == MinInt64 then "-" else Decimal(n)
    ensures ParsedValue(s) == n <==> n != MinInt64
  {
    ParseDecimal(n);
  }

  // No printed numeral of a number other than zero starts with a zero, signed or not.
  lemma PrintedHasNoLeadingZero(n: Int64)
    requires n != 0
    ensures Decimal(n)[if n < 0 then 1 else 0] != '0'
  {
    var m: int := n;
    NoLeadingZero(if m < 0 then -m else m);
  }
}
