/**
 Decimal digits, the formatter's two-digit integers, and fixed-point decimals, each with the
 proof that writing and reading are inverse.
*/
module Numerals {
  const DIGITS := "0123456789"

  predicate IsDigit(c: char) {
    '0' <= c <= '9'
  }

  ghost predicate AllDigits(s: string) {
    forall k :: 0 <= k < |s| ==> IsDigit(s[k])
  }

  function Digit(d: nat): char
    requires d < 10
  {
    DIGITS[d]
  }

  function DigitValue(c: char): nat
    requires IsDigit(c)
  {
    c as int - '0' as int
  }

  // Plain decimal notation, no leading zeros.
  function Decimal(n: nat): string {
    if n < 10 then [Digit(n)] else Decimal(n / 10) + [Digit(n % 10)]
  }

  function Value(s: string): nat
    requires AllDigits(s)
  {
    if s == [] then 0 else Value(s[..|s| - 1]) * 10 + DigitValue(s[|s| - 1])
  }

  lemma {:induction false} DecimalIsRead(n: nat)
    ensures AllDigits(Decimal(n)) && Decimal(n) != [] && Value(Decimal(n)) == n
    ensures Decimal(n)[0] == '0' <==> n == 0
  {
    if n >= 10 {
      DecimalIsRead(n / 10);
      assert Decimal(n)[..|Decimal(n)| - 1] == Decimal(n / 10);
    } else {
      assert Decimal(n)[..0] == [];
    }
  }

  // Digits without a leading zero are the decimal notation of their value.
  lemma {:induction false} DigitsAreDecimal(s: string)
    requires s != [] && AllDigits(s) && (s[0] != '0' || |s| == 1)
    ensures Decimal(Value(s)) == s
    ensures s[0] != '0' ==> Value(s) > 0
  {
    var front, last := s[..|s| - 1], s[|s| - 1];
    assert s == front + [last];
    if front == [] {
      assert Value(s) == DigitValue(last);
    } else {
      DigitsAreDecimal(front);
      assert Value(s) / 10 == Value(front) && Value(s) % 10 == DigitValue(last);
    }
  }

  // Leading zeros do not change the value.
  lemma {:induction false} ZerosInFront(zeros: string, s: string)
    requires AllDigits(s) && forall k :: 0 <= k < |zeros| ==> zeros[k] == '0'
    ensures AllDigits(zeros + s) && Value(zeros + s) == Value(s)
  {
    if s == [] {
      assert zeros + s == zeros;
      if zeros != [] {
        ZerosInFront(zeros[..|zeros| - 1], []);
        assert zeros[..|zeros| - 1] + [] == zeros[..|zeros| - 1];
      }
    } else {
      var front := s[..|s| - 1];
      ZerosInFront(zeros, front);
      assert (zeros + s)[..|zeros + s| - 1] == zeros + front;
    }
  }

  lemma {:induction false} LeadingZeroSplit(s: string) returns (zeros: string, rest: string)
    requires AllDigits(s)
    ensures s == zeros + rest && (forall k :: 0 <= k < |zeros| ==> zeros[k] == '0')
    ensures AllDigits(rest) && (rest == [] || rest[0] != '0')
  {
    if s == [] || s[0] != '0' {
      zeros, rest := [], s;
    } else {
      zeros, rest := LeadingZeroSplit(s[1..]);
      zeros := ['0'] + zeros;
    }
  }

  // ------------------------------------------------------ positive two-digit integers

  // f"{n:02d}"
  function Padded(n: nat): string {
    if n < 10 then "0" + Decimal(n) else Decimal(n)
  }

  // (?:0[1-9]|[1-9][0-9]+)
  ghost predicate IsInteger(s: string) {
    && |s| >= 2 && AllDigits(s)
    && (s[0] == '0' ==> |s| == 2 && s[1] != '0')
  }

  lemma PaddedIsRead(n: nat)
    requires n > 0
    ensures IsInteger(Padded(n)) && Value(Padded(n)) == n
  {
    DecimalIsRead(n);
    if n < 10 {
      ZerosInFront("0", Decimal(n));
    } else {
      DecimalIsRead(n / 10);
    }
  }

  lemma IntegerIsPadded(s: string)
    requires IsInteger(s)
    ensures Value(s) > 0 && Padded(Value(s)) == s
  {
    if s[0] == '0' {
      assert s == "0" + [s[1]];
      ZerosInFront("0", [s[1]]);
      DigitsAreDecimal([s[1]]);
    } else {
      DigitsAreDecimal(s);
      DigitsAreDecimal(s[..|s| - 1]);
    }
  }

  // --------------------------------------------------------------- fixed-point decimals

  // units / 10^scale, in lowest terms: equal numbers are equal values of this type.
  datatype Fixed = Fixed(units: nat, scale: nat)

  ghost predicate Lowest(x: Fixed) {
    x.scale > 0 ==> x.units % 10 != 0
  }

  function Zeros(n: nat): string {
    seq(n, _ => '0')
  }

  // At least scale + 1 digits.
  function PaddedTo(s: string, width: nat): string {
    if |s| < width then Zeros(width - |s|) + s else s
  }

  function FixedText(x: Fixed): string {
    var d := PaddedTo(Decimal(x.units), x.scale + 1);
    if x.scale == 0 then d else d[..|d| - x.scale] + "." + d[|d| - x.scale..]
  }

  // (?:0|[1-9][0-9]*) and [0-9]*[1-9]
  ghost predicate IsWhole(s: string) {
    s != [] && AllDigits(s) && (s[0] == '0' ==> |s| == 1)
  }

  ghost predicate IsFraction(s: string) {
    s != [] && AllDigits(s) && s[|s| - 1] != '0'
  }

  lemma PaddedToIsRead(n: nat, width: nat)
    requires width > 0
    ensures var d := PaddedTo(Decimal(n), width);
      AllDigits(d) && |d| >= width && Value(d) == n && (d[0] == '0' ==> |d| == width)
  {
    DecimalIsRead(n);
    if |Decimal(n)| < width {
      ZerosInFront(Zeros(width - |Decimal(n)|), Decimal(n));
    } else if Decimal(n)[0] == '0' {
      assert n == 0;
    }
  }

  lemma LastDigit(s: string)
    requires s != [] && AllDigits(s)
    ensures Value(s) % 10 == DigitValue(s[|s| - 1])
  {
  }

  lemma WholeOf(x: Fixed)
    requires x.scale == 0
    ensures IsWhole(FixedText(x)) && Value(FixedText(x)) == x.units
  {
    PaddedToIsRead(x.units, 1);
  }

  lemma DigitsSplit(d: string, scale: nat)
    requires 0 < scale < |d| && AllDigits(d) && (d[0] == '0' ==> |d| == scale + 1) && d[|d| - 1] != '0'
    ensures var whole, fraction := d[..|d| - scale], d[|d| - scale..];
      IsWhole(whole) && IsFraction(fraction) && |fraction| == scale && whole + fraction == d
  {
  }

  lemma FractionOf(x: Fixed)
    requires Lowest(x) && x.scale > 0
    ensures var d := PaddedTo(Decimal(x.units), x.scale + 1);
      && |d| > x.scale && AllDigits(d) && Value(d) == x.units && d[|d| - 1] != '0' && (d[0] == '0' ==> |d| == x.scale + 1)
  {
    PaddedToIsRead(x.units, x.scale + 1);
    LastDigit(PaddedTo(Decimal(x.units), x.scale + 1));
  }

  // Writing in lowest terms gives a whole part and, if any, a fraction with no trailing zero.
  lemma FixedIsRead(x: Fixed)
    requires Lowest(x)
    ensures x.scale == 0 ==> IsWhole(FixedText(x)) && Value(FixedText(x)) == x.units
    ensures x.scale > 0 ==>
      var d := PaddedTo(Decimal(x.units), x.scale + 1);
      var whole, fraction := d[..|d| - x.scale], d[|d| - x.scale..];
      && IsWhole(whole) && IsFraction(fraction) && |fraction| == x.scale
      && FixedText(x) == whole + "." + fraction && whole + fraction == d && AllDigits(d) && Value(d) == x.units
  {
    if x.scale == 0 {
      WholeOf(x);
    } else {
      FractionOf(x);
      DigitsSplit(PaddedTo(Decimal(x.units), x.scale + 1), x.scale);
    }
  }

  lemma {:induction false} SameLengthDigits(a: string, b: string)
    requires AllDigits(a) && AllDigits(b) && |a| == |b| && Value(a) == Value(b)
    ensures a == b
  {
    if a != [] {
      LastDigit(a);
      LastDigit(b);
      SameLengthDigits(a[..|a| - 1], b[..|b| - 1]);
      assert a == a[..|a| - 1] + [a[|a| - 1]];
      assert b == b[..|b| - 1] + [b[|b| - 1]];
    }
  }

  lemma PaddedWith(zeros: string, rest: string, width: nat)
    requires rest != [] && AllDigits(rest) && rest[0] != '0' && |zeros| + |rest| == width
    requires forall k :: 0 <= k < |zeros| ==> zeros[k] == '0'
    ensures PaddedTo(Decimal(Value(rest)), width) == zeros + rest
  {
    DigitsAreDecimal(rest);
    assert zeros == Zeros(|zeros|);
  }

  // Digits whose first one may be zero only at the given width are the padded notation.
  lemma DigitsArePadded(d: string, width: nat)
    requires 0 < width <= |d| && AllDigits(d) && (d[0] == '0' ==> |d| == width)
    ensures PaddedTo(Decimal(Value(d)), width) == d
  {
    if d[0] != '0' {
      DigitsAreDecimal(d);
    } else {
      var zeros, rest := LeadingZeroSplit(d);
      ZerosInFront(zeros, rest);
      if rest == [] {
        ZeroDigits(d);
      } else {
        PaddedWith(zeros, rest, width);
      }
    }
  }

  lemma ZeroDigits(d: string)
    requires d != [] && AllDigits(d) && Value(d) == 0
    ensures PaddedTo(Decimal(0), |d|) == d
  {
    PaddedToIsRead(0, |d|);
    assert |Decimal(0)| == 1;
    SameLengthDigits(PaddedTo(Decimal(0), |d|), d);
  }

  lemma WholeIsFixed(whole: string)
    requires IsWhole(whole)
    ensures FixedText(Fixed(Value(whole), 0)) == whole
  {
    DigitsAreDecimal(whole);
    DecimalIsRead(Value(whole));
  }

  lemma FractionIsFixed(whole: string, fraction: string)
    requires IsWhole(whole) && IsFraction(fraction)
    ensures AllDigits(whole + fraction)
    ensures var x := Fixed(Value(whole + fraction), |fraction|); Lowest(x) && FixedText(x) == whole + "." + fraction
    ensures Value(whole + fraction) > 0
  {
    var d := whole + fraction;
    LastDigit(d);
    DigitsArePadded(d, |fraction| + 1);
    assert d[..|whole|] == whole && d[|whole|..] == fraction;
  }
}
